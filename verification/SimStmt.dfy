/** Running the lines emitted for statements gives each statement's outcome. */
module SimStmt {
  import opened Words
  import opened Source
  import opened Target
  import opened Lowering
  import opened Checked
  import opened SimBase
  import opened SimExpr
  import opened SimFlow

  // --- the equations used ----------------------------------------------------------------

  lemma BlockEq(t: Sts, ss: seq<Stmt>, c: Ctx, s: Out)
    requires GenuineOut(t)
    ensures var (s1, c1) := t.stmts(ss, c.(defers := c.defers + [[]]), s);
            t.block(ss, c, s) == if s1.terminated then s1
                else t.defers(DefersOf(ss), c1.(defers := c.defers, inDefer := true), s1)
  {
    var c0 := c.(defers := c.defers + [[]]);
    var (s1, c1) := CStmts(ss, c0, s);
    assert t.block(ss, c, s) == CBlock(ss, c, s);
    assert t.stmts(ss, c0, s) == (s1, c1);
    assert t.defers(DefersOf(ss), c1.(defers := c.defers, inDefer := true), s1)
        == CDefers(DefersOf(ss), c1.(defers := c.defers, inDefer := true), s1);
  }

  lemma ScopeEq(Z: Site, t: Sts, ss: seq<Stmt>, env: Env, tr: seq<Event>, fuel: nat)
    requires GenuineRun(Z, t)
    ensures var r := t.execs(ss, env, tr, fuel); r.ran <= |ss|
    ensures var r := t.execs(ss, env, tr, fuel);
            t.scope(ss, env, tr, fuel) ==
            if r.out.Halted? || r.out.OutOfFuel? then r.out
            else AfterDefers(r.out, DefersOf(ss[..r.ran]), t.run(DefersOf(ss[..r.ran]), r.out.env, r.out.tr, fuel),
                env.Keys)
  {
    assert t.scope(ss, env, tr, fuel) == ExecBlock(Z.w.o, Z.g, ss, env, tr, fuel);
    var r := ExecStmts(Z.w.o, Z.g, ss, env, tr, fuel);
    assert t.execs(ss, env, tr, fuel) == r;
    if !r.out.Halted? && !r.out.OutOfFuel? {
      assert t.run(DefersOf(ss[..r.ran]), r.out.env, r.out.tr, fuel)
          == RunDefers(Z.w.o, Z.g, DefersOf(ss[..r.ran]), r.out.env, r.out.tr, fuel);
    }
  }

  lemma BlockOk(t: Sts, ss: seq<Stmt>, k: Chk)
    requires GenuineOk(t) && t.okBlock(ss, k)
    ensures t.okStmts(ss, k.(defers := k.defers + [[]]))
    ensures t.okFrame(DefersOf(ss), InDefer(AfterAllK(ss, k.(defers := k.defers + [[]])).(defers := k.defers)))
  {
    var k1 := k.(defers := k.defers + [[]]);
    var k2 := InDefer(AfterAllK(ss, k1).(defers := k.defers));
    assert t.okBlock(ss, k) == OkBlock(ss, k);
    assert t.okStmts(ss, k1) == OkStmts(ss, k1);
    assert t.okFrame(DefersOf(ss), k2) == OkFrame(DefersOf(ss), k2);
  }

  lemma DefersEq(t: Sts, f: seq<seq<Stmt>>, c: Ctx, s: Out)
    requires GenuineOut(t)
    ensures Ext(s, t.defers(f, c, s))
    ensures f == [] ==> t.defers(f, c, s) == s
    ensures f != [] ==> t.defers(f, c, s) == t.defers(f[..|f| - 1], c, t.block(f[|f| - 1], c, s))
    ensures f != [] ==> Ext(t.block(f[|f| - 1], c, s), t.defers(f, c, s))
  {
    assert t.defers(f, c, s) == CDefers(f, c, s);
    if f != [] {
      var s1 := CBlock(f[|f| - 1], c, s);
      assert t.block(f[|f| - 1], c, s) == s1;
      assert t.defers(f[..|f| - 1], c, s1) == CDefers(f[..|f| - 1], c, s1);
    }
  }

  lemma RunEq(Z: Site, t: Sts, f: seq<seq<Stmt>>, env: Env, tr: seq<Event>, fuel: nat)
    requires GenuineRun(Z, t)
    ensures f == [] ==> t.run(f, env, tr, fuel) == Normal(env, tr)
    ensures f != [] ==>
              var out := t.scope(f[|f| - 1], env, tr, fuel);
              t.run(f, env, tr, fuel) == if out.Normal? then t.run(f[..|f| - 1], out.env, out.tr, fuel) else out
  {
    assert t.run(f, env, tr, fuel) == RunDefers(Z.w.o, Z.g, f, env, tr, fuel);
    if f != [] {
      var out := ExecBlock(Z.w.o, Z.g, f[|f| - 1], env, tr, fuel);
      assert t.scope(f[|f| - 1], env, tr, fuel) == out;
      assert out.Normal? ==> t.run(f[..|f| - 1], out.env, out.tr, fuel) == RunDefers(Z.w.o, Z.g, f[..|f| - 1], out.env,
          out.tr, fuel);
    }
  }

  lemma FrameOk(t: Sts, f: seq<seq<Stmt>>, k: Chk)
    requires GenuineOk(t) && k.inDefer && t.okFrame(f, k) && f != []
    ensures t.okBlock(f[|f| - 1], k) && t.okFrame(f[..|f| - 1], k)
  {
    assert t.okFrame(f, k) == OkFrame(f, k);
    assert t.okBlock(f[|f| - 1], k) == OkBlock(f[|f| - 1], k);
    assert t.okFrame(f[..|f| - 1], k) == OkFrame(f[..|f| - 1], k);
  }

  // --- defers ---------------------------------------------------------------------------------

  /** The defers of one frame, run to the end, to a halt, or for ever; they cannot leave. */
  lemma SimDefers(Z: Site, t: Sts, f: seq<seq<Stmt>>, c: Ctx, s: Out, env: Env, tr: seq<Event>, cfg: Cfg, fuel: nat)
          returns (v: Via)
    requires Real(Z, t) && In(Z, c, s, env, tr, cfg) && c.inDefer
    requires t.okFrame(f, KOf(c, None)) && Fits(Z, t.defers(f, c, s))
    ensures var out := t.run(f, env, tr, fuel);
            && (out.Normal? || out.Halted? || out.OutOfFuel?)
            && FlowPost(Z, t, c.defers, c, Around(None, 0, 0), c, s.n, t.defers(f, c, s), cfg, out, fuel, v)
    decreases fuel, FSize(f), 0
  {
    DefersEq(t, f, c, s);
    RunEq(Z, t, f, env, tr, fuel);
    if f == [] {
      v := Via(0, cfg, s, c, LOk(None));
    } else {
      var b, rest := f[|f| - 1], f[..|f| - 1];
      var s1 := t.block(b, c, s);
      FrameOk(t, f, KOf(c, None));
      FitsExt(Z, s1, t.defers(f, c, s));
      v := SimBlock(Z, t, b, c, Around(None, 0, 0), s, env, tr, cfg, fuel);
      var out := t.scope(b, env, tr, fuel);
      if out.Normal? {
        BlockExt(t, b, c, s);
        var v1 := SimDefers(Z, t, rest, c, s1, out.env, out.tr, v.cfg, fuel);
        FlowAfter(Z, t, c.defers, c, Around(None, 0, 0), c, s.n, t.defers(f, c, s), cfg, v.k, v.cfg, s1.n,
            t.run(rest, out.env, out.tr, fuel), fuel, v1);
        v := v1.(k := v.k + v1.k);
      }
    }
  }

  lemma BlockExt(t: Sts, ss: seq<Stmt>, c: Ctx, s: Out)
    requires GenuineOut(t)
    ensures Ext(s, t.block(ss, c, s))
  {
    assert t.block(ss, c, s) == CBlock(ss, c, s);
  }

  // --- scopes -----------------------------------------------------------------------------------

  /** A scope's frame of registered defers over the frames already open. */
  function Open(c: Ctx, ss: seq<Stmt>, ran: nat): seq<seq<seq<Stmt>>>
    requires ran <= |ss|
  {
    c.defers + [DefersOf(ss[..ran])]
  }

  lemma UnwindEq(t: Sts, fs: seq<seq<seq<Stmt>>>, d: seq<seq<Stmt>>, m: Leave, c: Ctx, s: Out)
    requires GenuineOut(t) && !c.inDefer
    ensures t.unwind(fs + [d], m, c, s) == t.unwind(fs, m, c, t.defers(d, c.(inDefer := true), s))
    ensures Ext(t.defers(d, c.(inDefer := true), s), t.unwind(fs + [d], m, c, s))
  {
    var all, c1 := fs + [d], c.(inDefer := true);
    var s1 := CDefers(d, c1, s);
    assert all[..|all| - 1] == fs && all[|all| - 1] == d;
    assert t.unwind(all, m, c, s) == CUnwind(all, m, c, s) && t.defers(d, c1, s) == s1;
    assert t.unwind(fs, m, c, s1) == CUnwind(fs, m, c, s1);
  }

  lemma FramesOk(t: Sts, fs: seq<seq<seq<Stmt>>>, d: seq<seq<Stmt>>, m: Leave, c: Ctx)
    requires GenuineOk(t) && t.okUnwind(fs + [d], m, c)
    ensures t.okUnwind(fs, m, c) && t.okFrame(d, InDefer(KOf(c, None)))
  {
    var all, k := fs + [d], InDefer(KOf(c, None));
    assert all[..|all| - 1] == fs && all[|all| - 1] == d;
    assert t.okUnwind(all, m, c) == OkUnwind(all, m, c) && t.okUnwind(fs, m, c) == OkUnwind(fs, m, c)
        && t.okFrame(d, k) == OkFrame(d, k);
  }

  predicate Unjumped(out: SO) {
    !out.Broke? && !out.Continued?
  }

  /** Leaving a scope: its own defers run, and the frames outside remain. */
  lemma BlockLeave(Z: Site, t: Sts, d: seq<seq<Stmt>>, ss: seq<Stmt>, c: Ctx, l: Around, s1: Out, n: nat,
          names: set<string>, cfg: Cfg, out: SO, fuel: nat, v: Via) returns (v1: Via)
    requires Real(Z, t) && out.Leaving? && FSize(d) <= BSize(ss)
    requires FlowPost(Z, t, c.defers + [d], c, l, c, n, s1, cfg, out, fuel, v)
    ensures FlowPost(Z, t, c.defers, c, l, c, n, s1, cfg, AfterDefers(out, d, t.run(d, out.env, out.tr, fuel), names),
            fuel, v1)
    ensures Unjumped(AfterDefers(out, d, t.run(d, out.env, out.tr, fuel), names))
    decreases fuel, BSize(ss), 7
  {
    var cu := v.c.(inDefer := true);
    UnwindEq(t, c.defers, d, v.m, v.c, v.u);
    FramesOk(t, c.defers, d, v.m, v.c);
    var u1 := t.defers(d, cu, v.u);
    FitsExt(Z, u1, t.unwind(c.defers + [d], v.m, v.c, v.u));
    assert KOf(cu, None) == InDefer(KOf(v.c, None));
    assert In(Z, cu, v.u, out.env, out.tr, v.cfg);
    var w := SimDefers(Z, t, d, cu, v.u, out.env, out.tr, v.cfg, fuel);
    DefersEq(t, d, cu, v.u);
    v1 := LeaveKept(Z, t, d, c, l, s1, n, names, cfg, out, t.run(d, out.env, out.tr, fuel), u1, fuel, v, w);
  }

  /** The leave goes on in the scope it left, after the frame's defers. */
  lemma LeaveKept(Z: Site, t: Sts, d: seq<seq<Stmt>>, c: Ctx, l: Around, s1: Out, n: nat, names: set<string>, cfg: Cfg,
          out: SO, ran: SO, u1: Out, fuel: nat, v: Via, w: Via) returns (v1: Via)
    requires out.Leaving? && (ran.Normal? || ran.Halted? || ran.OutOfFuel?) && v.u.n <= u1.n
    requires FlowPost(Z, t, c.defers + [d], c, l, c, n, s1, cfg, out, fuel, v)
    requires var cu := v.c.(inDefer := true);
             FlowPost(Z, t, cu.defers, cu, Around(None, 0, 0), cu, v.u.n, u1, v.cfg, ran, fuel, w)
    requires t.unwind(c.defers + [d], v.m, v.c, v.u) == t.unwind(c.defers, v.m, v.c, u1)
             && t.okUnwind(c.defers, v.m, v.c)
    ensures FlowPost(Z, t, c.defers, c, l, c, n, s1, cfg, AfterDefers(out, d, ran, names), fuel, v1)
    ensures Unjumped(AfterDefers(out, d, ran, names))
  {
    var cu := v.c.(inDefer := true);
    FlowAfter(Z, t, cu.defers, cu, Around(None, 0, 0), cu, n, u1, cfg, v.k, v.cfg, v.u.n, ran, fuel, w);
    v1 := Via(v.k + w.k, w.cfg, u1, v.c, v.m);
    assert (c.defers + [d]) + out.left == c.defers + ([d] + out.left);
  }

  lemma BlockJump(Z: Site, t: Sts, d: seq<seq<Stmt>>, c: Ctx, l: Around, n: nat, s1: Out, env: Env, cfg: Cfg, out: SO,
          fuel: nat, v: Via) returns (v1: Via)
    requires Real(Z, t) && (out.Broke? || out.Continued?) && AroundOk(Z, c, l) && env.Keys == c.locals.Keys
    requires FlowPost(Z, t, c.defers + [d], c, l, c, n, s1, cfg, out, fuel, v)
    ensures FlowPost(Z, t, c.defers, c, l, c, n, s1, cfg,
            AfterDefers(out, d, t.run(d, out.env, out.tr, fuel), env.Keys), fuel, v1)
    ensures v1.c == c
  {
    var fs, i := c.defers + [d], l.loop.value;
    assert fs[i..][|c.defers| - i] == d;
    forall j | 0 <= j < |c.defers[i..]| ensures c.defers[i..][j] == [] {
      assert fs[i..][j] == c.defers[i..][j];
    }
    RunEq(Z, t, d, out.env, out.tr, fuel);
    RelRestrict(out.env, c.locals, v.c.locals, v.cfg.mem);
    v1 := v.(c := c);
  }

  lemma BlockNormal(Z: Site, t: Sts, ss: seq<Stmt>, c: Ctx, l: Around, c1: Ctx, s: Out, s1: Out, env: Env, cfg: Cfg,
          out: SO, fuel: nat, v: Via) returns (v1: Via)
    requires Real(Z, t) && out.Normal? && Went(Z, s.n, cfg, v.k, v.cfg) && In(Z, c1, s1, out.env, out.tr, v.cfg)
             && s.n <= s1.n
    requires Keeping(c.locals, c1.locals) && env.Keys == c.locals.Keys && c.g == Z.g
    requires t.okFrame(DefersOf(ss), KOf(c1.(defers := c.defers, inDefer := true), None))
    requires Fits(Z, t.defers(DefersOf(ss), c1.(defers := c.defers, inDefer := true), s1))
    ensures FlowPost(Z, t, c.defers, c, l, c, s.n, t.defers(DefersOf(ss), c1.(defers := c.defers, inDefer := true), s1),
            cfg,
                     AfterDefers(out, DefersOf(ss), t.run(DefersOf(ss), out.env, out.tr, fuel), env.Keys), fuel, v1)
    ensures Unjumped(AfterDefers(out, DefersOf(ss), t.run(DefersOf(ss), out.env, out.tr, fuel), env.Keys))
    decreases fuel, BSize(ss), 7
  {
    var d, cd := DefersOf(ss), c1.(defers := c.defers, inDefer := true);
    DefersSize(ss);
    assert In(Z, cd, s1, out.env, out.tr, v.cfg);
    var w := SimDefers(Z, t, d, cd, s1, out.env, out.tr, v.cfg, fuel);
    var ran, sB := t.run(d, out.env, out.tr, fuel), t.defers(d, cd, s1);
    FlowAfter(Z, t, cd.defers, cd, Around(None, 0, 0), cd, s.n, sB, cfg, v.k, v.cfg, s1.n, ran, fuel, w);
    v1 := w.(k := v.k + w.k);
    if ran.Normal? {
      RelRestrict(ran.env, c.locals, c1.locals, w.cfg.mem);
      LocalsSub(c.locals, c1.locals, sB.n);
    }
  }

  function Grown(fs: seq<seq<seq<Stmt>>>, d: seq<seq<Stmt>>): seq<seq<seq<Stmt>>> {
    if fs == [] then fs else fs[|fs| - 1 := fs[|fs| - 1] + d]
  }

  lemma GrownNone(fs: seq<seq<seq<Stmt>>>)
    ensures Grown(fs, []) == fs
  {
    if fs != [] {
      assert fs[|fs| - 1] + [] == fs[|fs| - 1];
    }
  }

  lemma GrownNew(fs: seq<seq<seq<Stmt>>>, d: seq<seq<Stmt>>)
    ensures Grown(fs + [[]], d) == fs + [d]
  {
    assert [] + d == d;
  }

  lemma SimBlock(Z: Site, t: Sts, ss: seq<Stmt>, c: Ctx, l: Around, s: Out, env: Env, tr: seq<Event>, cfg: Cfg,
          fuel: nat) returns (v: Via)
    requires Real(Z, t) && In(Z, c, s, env, tr, cfg) && AroundOk(Z, c, l)
    requires t.okBlock(ss, KOf(c, l.loop)) && Fits(Z, t.block(ss, c, s))
    ensures FlowPost(Z, t, c.defers, c, l, c, s.n, t.block(ss, c, s), cfg, t.scope(ss, env, tr, fuel), fuel, v)
    ensures Unjumped(t.scope(ss, env, tr, fuel)) || v.c.locals == c.locals
    decreases fuel, BSize(ss) + 1, 6
  {
    var c0 := c.(defers := c.defers + [[]]);
    var (s1, c1) := t.stmts(ss, c0, s);
    var r := t.execs(ss, env, tr, fuel);
    BlockEq(t, ss, c, s);
    ScopeEq(Z, t, ss, env, tr, fuel);
    BlockOk(t, ss, KOf(c, l.loop));
    DefersEq(t, DefersOf(ss), c1.(defers := c.defers, inDefer := true), s1);
    FitsExt(Z, s1, t.block(ss, c, s));
    v := SimStmts(Z, t, ss, c0, l, s, env, tr, cfg, fuel);
    var d := DefersOf(ss[..r.ran]);
    GrownNew(c.defers, d);
    PrefixSize(ss, r.ran);
    DefersSize(ss[..r.ran]);
    v := BlockCases(Z, t, ss, c, l, c1, s, s1, env, cfg, r, fuel, v);
  }

  lemma BlockCases(Z: Site, t: Sts, ss: seq<Stmt>, c: Ctx, l: Around, c1: Ctx, s: Out, s1: Out, env: Env, cfg: Cfg,
          r: LO, fuel: nat, v: Via) returns (v1: Via)
    requires Real(Z, t) && AroundOk(Z, c, l) && env.Keys == c.locals.Keys && c.g == Z.g && r.ran <= |ss| && s.n <= s1.n
    requires FSize(DefersOf(ss[..r.ran])) <= BSize(ss)
    requires FlowPost(Z, t, c.defers + [DefersOf(ss[..r.ran])], c, l, c1, s.n, s1, cfg, r.out, fuel, v)
    requires var sB := if s1.terminated then s1
             else t.defers(DefersOf(ss), c1.(defers := c.defers, inDefer := true), s1); Fits(Z, sB)
    requires r.out.Normal? ==>
               && r.ran == |ss| && Keeping(c.locals, c1.locals)
               && t.okFrame(DefersOf(ss), KOf(c1.(defers := c.defers, inDefer := true), None))
    ensures var sB := if s1.terminated then s1
            else t.defers(DefersOf(ss), c1.(defers := c.defers, inDefer := true), s1);
            var out := if r.out.Halted? || r.out.OutOfFuel? then r.out
                       else AfterDefers(r.out, DefersOf(ss[..r.ran]),
                           t.run(DefersOf(ss[..r.ran]), r.out.env, r.out.tr, fuel), env.Keys);
            FlowPost(Z, t, c.defers, c, l, c, s.n, sB, cfg, out, fuel, v1) && (Unjumped(out) || v1.c.locals == c.locals)
    decreases fuel, BSize(ss), 8
  {
    var sB := if s1.terminated then s1 else t.defers(DefersOf(ss), c1.(defers := c.defers, inDefer := true), s1);
    match r.out {
      case Normal(_, _) =>
        assert ss[..r.ran] == ss;
        v1 := BlockNormal(Z, t, ss, c, l, c1, s, s1, env, cfg, r.out, fuel, v);
      case Leaving(_, _, _, _) =>
        v1 := BlockLeave(Z, t, DefersOf(ss[..r.ran]), ss, c, l, sB, s.n, env.Keys, cfg, r.out, fuel, v);
      case Broke(_, _) =>
        v1 := BlockJump(Z, t, DefersOf(ss[..r.ran]), c, l, s.n, sB, env, cfg, r.out, fuel, v);
      case Continued(_, _) =>
        v1 := BlockJump(Z, t, DefersOf(ss[..r.ran]), c, l, s.n, sB, env, cfg, r.out, fuel, v);
      case _ => v1 := v;
    }
  }

  // --- statement lists -----------------------------------------------------------------------------------

  lemma StmtsEq(t: Sts, ss: seq<Stmt>, c: Ctx, s: Out)
    requires GenuineOut(t)
    ensures Ext(s, t.stmts(ss, c, s).0)
    ensures t.stmts(ss, c, s) == if ss == [] || s.terminated then (s, c)
            else t.stmts(ss[1..], After(ss[0], c, s), t.stmt(ss[0], c, s))
    ensures ss != [] && !s.terminated ==> Ext(t.stmt(ss[0], c, s), t.stmts(ss, c, s).0) && Ext(s, t.stmt(ss[0], c, s))
  {
    assert t.stmts(ss, c, s) == CStmts(ss, c, s);
    if ss != [] && !s.terminated {
      var s1, c1 := CStmt(ss[0], c, s), After(ss[0], c, s);
      assert t.stmt(ss[0], c, s) == s1;
      assert t.stmts(ss[1..], c1, s1) == CStmts(ss[1..], c1, s1);
    }
  }

  lemma ExecsEq(Z: Site, t: Sts, ss: seq<Stmt>, env: Env, tr: seq<Event>, fuel: nat)
    requires GenuineRun(Z, t)
    ensures t.execs(ss, env, tr, fuel).ran <= |ss|
    ensures ss == [] ==> t.execs(ss, env, tr, fuel) == LO(Normal(env, tr), 0)
    ensures ss != [] ==>
              var out := t.exec(ss[0], env, tr, fuel); var e := t.execs(ss, env, tr, fuel);
              if !out.Normal? then e == LO(out, 0)
              else var r := t.execs(ss[1..], out.env, out.tr, fuel); e == LO(r.out, r.ran + 1)
  {
    assert t.execs(ss, env, tr, fuel) == ExecStmts(Z.w.o, Z.g, ss, env, tr, fuel);
    if ss != [] {
      var out := Exec(Z.w.o, Z.g, ss[0], env, tr, fuel);
      assert t.exec(ss[0], env, tr, fuel) == out;
      assert out.Normal? ==> t.execs(ss[1..], out.env, out.tr, fuel) == ExecStmts(Z.w.o, Z.g, ss[1..], out.env, out.tr,
          fuel);
    }
  }

  lemma StmtsOk(t: Sts, ss: seq<Stmt>, k: Chk)
    requires GenuineOk(t) && t.okStmts(ss, k) && ss != []
    ensures t.okStmt(ss[0], k) && t.okStmts(ss[1..], AfterK(ss[0], k))
  {
    assert t.okStmts(ss, k) == OkStmts(ss, k);
    assert t.okStmt(ss[0], k) == OkStmt(ss[0], k);
    assert t.okStmts(ss[1..], AfterK(ss[0], k)) == OkStmts(ss[1..], AfterK(ss[0], k));
  }

  /** The scope after a statement, and the checks' view of it. */
  lemma AfterFacts(t: Sts, st: Stmt, c: Ctx, s: Out, loop: Option<nat>)
    requires GenuineOk(t) && t.okStmt(st, KOf(c, loop)) && c.defers != []
    ensures var c1 := After(st, c, s);
            && KOf(c1, loop) == AfterK(st, KOf(c, loop)) && Keeping(c.locals, c1.locals)
            && c1.g == c.g && c1.fn == c.fn && c1.inDefer == c.inDefer && c1.loops == c.loops
            && c1.defers == Grown(c.defers, if st.Defer? then [st.body] else [])
  {
    var c1 := After(st, c, s);
    assert t.okStmt(st, KOf(c, loop)) == OkStmt(st, KOf(c, loop));
    if st.VarDecl? {
      assert st.name !in c.locals;
      assert TypesOf(c1.locals) == TypesOf(c.locals)[st.name := st.ty];
    }
    GrownNone(c.defers);
  }

  /** A run from a later scope of the same list, seen from the earlier one. */
  lemma FlowFrom(Z: Site, t: Sts, fs: seq<seq<seq<Stmt>>>, c: Ctx, c0: Ctx, l: Around, c1: Ctx, n: nat, s1: Out,
          cfg: Cfg, out: SO, fuel: nat, v: Via)
    requires Keeping(c0.locals, c.locals) && c0.fn == c.fn && c0.inDefer == c.inDefer
    requires FlowPost(Z, t, fs, c, l, c1, n, s1, cfg, out, fuel, v)
    ensures FlowPost(Z, t, fs, c0, l, c1, n, s1, cfg, out, fuel, v)
  {}

  lemma GrownTwice(fs: seq<seq<seq<Stmt>>>, st: Stmt, ss: seq<Stmt>, ran: nat)
    requires fs != [] && ran <= |ss| - 1 && ss[0] == st
    ensures var d := if st.Defer? then [st.body] else [];
            Grown(Grown(fs, d), DefersOf(ss[1..][..ran])) == Grown(fs, DefersOf(ss[..ran + 1]))
  {
    var d, rest := if st.Defer? then [st.body] else [], DefersOf(ss[1..][..ran]);
    assert ss[..ran + 1][1..] == ss[1..][..ran];
    assert DefersOf(ss[..ran + 1]) == d + rest;
    var k := |fs| - 1;
    assert (fs[k] + d) + rest == fs[k] + (d + rest);
  }

  /** The lines of a statement list, and its scope at the end of it. */
  ghost predicate ListPost(Z: Site, t: Sts, ss: seq<Stmt>, c: Ctx, l: Around, c1: Ctx, n: nat, s1: Out, cfg: Cfg,
          r: LO, fuel: nat, v: Via) {
    && r.ran <= |ss|
    && FlowPost(Z, t, Grown(c.defers, DefersOf(ss[..r.ran])), c, l, c1, n, s1, cfg, r.out, fuel, v)
    && (r.out.Normal? ==>
          r.ran == |ss| && Keeping(c.locals, c1.locals) && c1.g == c.g && c1.fn == c.fn && c1.inDefer == c.inDefer
          && KOf(c1, l.loop) == AfterAllK(ss, KOf(c, l.loop)))
  }

  lemma SimStmts(Z: Site, t: Sts, ss: seq<Stmt>, c: Ctx, l: Around, s: Out, env: Env, tr: seq<Event>, cfg: Cfg,
          fuel: nat) returns (v: Via)
    requires Real(Z, t) && In(Z, c, s, env, tr, cfg) && AroundOk(Z, c, l) && c.defers != []
    requires t.okStmts(ss, KOf(c, l.loop)) && Fits(Z, t.stmts(ss, c, s).0)
    ensures ListPost(Z, t, ss, c, l, t.stmts(ss, c, s).1, s.n, t.stmts(ss, c, s).0, cfg, t.execs(ss, env, tr, fuel),
            fuel, v)
    ensures Ext(s, t.stmts(ss, c, s).0)
    decreases fuel, BSize(ss), 5
  {
    StmtsEq(t, ss, c, s);
    ExecsEq(Z, t, ss, env, tr, fuel);
    if ss == [] {
      GrownNone(c.defers);
      v := Via(0, cfg, s, c, LOk(None));
    } else {
      StmtsOk(t, ss, KOf(c, l.loop));
      AfterFacts(t, ss[0], c, s, l.loop);
      var s1, out := t.stmt(ss[0], c, s), t.exec(ss[0], env, tr, fuel);
      FitsExt(Z, s1, t.stmts(ss, c, s).0);
      v := SimStmt(Z, t, ss[0], c, l, s, env, tr, cfg, fuel);
      if out.Normal? {
        v := StmtsRest(Z, t, ss, c, After(ss[0], c, s), l, s.n, s1, cfg, out, fuel, v);
      } else {
        assert ss[..0] == [];
        GrownNone(c.defers);
      }
    }
  }

  lemma StmtsRest(Z: Site, t: Sts, ss: seq<Stmt>, c: Ctx, c1: Ctx, l: Around, n: nat, s1: Out, cfg: Cfg, out: SO,
          fuel: nat, v: Via) returns (v2: Via)
    requires Real(Z, t) && ss != [] && c.defers != [] && AroundOk(Z, c, l) && n <= s1.n && out.Normal?
    requires Went(Z, n, cfg, v.k, v.cfg) && In(Z, c1, s1, out.env, out.tr, v.cfg)
    requires KOf(c1, l.loop) == AfterK(ss[0], KOf(c, l.loop)) && Keeping(c.locals, c1.locals)
    requires c1.g == c.g && c1.fn == c.fn && c1.inDefer == c.inDefer && c1.loops == c.loops
    requires c1.defers == Grown(c.defers, if ss[0].Defer? then [ss[0].body] else [])
    requires t.okStmts(ss[1..], KOf(c1, l.loop)) && Fits(Z, t.stmts(ss[1..], c1, s1).0)
    ensures var (s2, c2) := t.stmts(ss[1..], c1, s1); var r := t.execs(ss[1..], out.env, out.tr, fuel);
            ListPost(Z, t, ss, c, l, c2, n, s2, cfg, LO(r.out, r.ran + 1), fuel, v2)
    decreases fuel, BSize(ss), 4
  {
    assert BSize(ss) == SSize(ss[0]) + BSize(ss[1..]);
    var (s2, c2) := t.stmts(ss[1..], c1, s1);
    var r := t.execs(ss[1..], out.env, out.tr, fuel);
    var v1 := SimStmts(Z, t, ss[1..], c1, l, s1, out.env, out.tr, v.cfg, fuel);
    v2 := StmtsJoin(Z, t, ss, ss[1..], c, c1, l, n, s1.n, s2, c2, cfg, v, r, fuel, v1);
  }

  lemma StmtsJoin(Z: Site, t: Sts, ss: seq<Stmt>, rest: seq<Stmt>, c: Ctx, c1: Ctx, l: Around, n: nat, m: nat, s2: Out,
          c2: Ctx, cfg: Cfg, v: Via, r: LO, fuel: nat, v1: Via) returns (v2: Via)
    requires ss != [] && rest == ss[1..] && c.defers != [] && n <= m && Went(Z, n, cfg, v.k, v.cfg)
    requires KOf(c1, l.loop) == AfterK(ss[0], KOf(c, l.loop)) && Keeping(c.locals, c1.locals)
    requires c1.g == c.g && c.fn == c1.fn && c.inDefer == c1.inDefer
    requires c1.defers == Grown(c.defers, if ss[0].Defer? then [ss[0].body] else [])
    requires ListPost(Z, t, rest, c1, l, c2, m, s2, v.cfg, r, fuel, v1)
    ensures ListPost(Z, t, ss, c, l, c2, n, s2, cfg, LO(r.out, r.ran + 1), fuel, v2)
  {
    v2 := FlowJoined(Z, t, ss, rest, c, c1, l, n, m, s2, c2, cfg, v, r, fuel, v1);
  }

  lemma FlowJoined(Z: Site, t: Sts, ss: seq<Stmt>, rest: seq<Stmt>, c: Ctx, c1: Ctx, l: Around, n: nat, m: nat,
          s2: Out, c2: Ctx, cfg: Cfg, v: Via, r: LO, fuel: nat, v1: Via) returns (v2: Via)
    requires ss != [] && rest == ss[1..] && c.defers != [] && r.ran <= |rest| && n <= m && Went(Z, n, cfg, v.k, v.cfg)
    requires Keeping(c.locals, c1.locals) && c.fn == c1.fn && c.inDefer == c1.inDefer
    requires c1.defers == Grown(c.defers, if ss[0].Defer? then [ss[0].body] else [])
    requires FlowPost(Z, t, Grown(c1.defers, DefersOf(rest[..r.ran])), c1, l, c2, m, s2, v.cfg, r.out, fuel, v1)
    ensures FlowPost(Z, t, Grown(c.defers, DefersOf(ss[..r.ran + 1])), c, l, c2, n, s2, cfg, r.out, fuel, v2)
  {
    GrownTwice(c.defers, ss[0], ss, r.ran);
    var fs := Grown(c.defers, DefersOf(ss[..r.ran + 1]));
    FlowFrom(Z, t, fs, c1, c, l, c2, m, s2, v.cfg, r.out, fuel, v1);
    FlowAfter(Z, t, fs, c, l, c2, n, s2, cfg, v.k, v.cfg, m, r.out, fuel, v1);
    v2 := v1.(k := v.k + v1.k);
  }

  // --- declarations and assignments ------------------------------------------------------------

  lemma RelDecl(env: Env, locals: map<string, Local>, mem: map<nat, Cell>, n: nat, x: string, ty: Ty, v: int,
          slot: nat, m: nat)
    requires Rel(env, locals, mem) && LocalsOk(locals, n) && x !in locals && n < slot <= m && InRange(ty, v)
             && !ty.NilT? && slot in mem
    ensures Rel(env[x := TV(ty, v)], locals[x := Local(slot, ty)], mem[slot := Cell(Bits(ty), Some(Enc(Bits(ty), v)))])
    ensures LocalsOk(locals[x := Local(slot, ty)], m)
  {}

  lemma RelAssign(env: Env, locals: map<string, Local>, mem: map<nat, Cell>, n: nat, x: string, v: int)
    requires Rel(env, locals, mem) && LocalsOk(locals, n) && x in locals && InRange(locals[x].ty, v)
    ensures var l := locals[x];
            Rel(env[x := TV(l.ty, v)], locals, mem[l.slot := Cell(Bits(l.ty), Some(Enc(Bits(l.ty), v)))])
  {}

  lemma StoreAny(Z: Site, n: nat, w: nat, x: Opd, v: nat, slot: nat, cfg: Cfg, k: nat, cfg1: Cfg)
    requires Sound(Z) && Went(Z, n, cfg, k, cfg1) && Has(Z, cfg1.pc, Store(w, x, slot))
    requires slot in cfg1.mem && cfg1.mem[slot].w == w && Read(Z.w, cfg1, w, x) == Some(v)
    ensures Went(Z, n, cfg, k + 1, SetMem(cfg1, slot, Cell(w, Some(v))))
  {
    Snoc(Z.f.step, cfg, k, cfg1);
    assert Z.f.step(cfg1) == Step(Z.w, cfg1);
  }

  lemma DeclEq(Z: Site, t: Sts, x: string, ty: Ty, e: Expr, c: Ctx, loop: Option<nat>, s: Out)
    requires Real(Z, t) && c.g == Z.g && t.okStmt(VarDecl(x, ty, e), KOf(c, loop))
    ensures x !in c.locals && !ty.NilT? && t.okExpr(e, KOf(c, loop)) && Z.f.ty(e, c) == Sc(ty)
    ensures var (s1, v) := Z.f.emit(e, c, AllocaAt(Tmp(s), s.n + 1, Bits(ty)));
            t.stmt(VarDecl(x, ty, e), c, s) == W(s1, Store(Bits(ty), v, s.n + 1))
  {
    var st, k, s0 := VarDecl(x, ty, e), KOf(c, loop), AllocaAt(Tmp(s), s.n + 1, Bits(ty));
    assert t.okStmt(st, k) == OkStmt(st, k);
    TypedOk(Z, t, e, ty, c, loop);
    assert t.stmt(st, c, s) == CStmt(st, c, s) && Z.f.emit(e, c, s0) == CExpr(e, c, s0);
  }

  lemma TypedOk(Z: Site, t: Sts, e: Expr, ty: Ty, c: Ctx, loop: Option<nat>)
    requires Real(Z, t) && c.g == Z.g && OkTyped(e, ty, KOf(c, loop))
    ensures t.okExpr(e, KOf(c, loop)) && Z.f.ty(e, c) == Sc(ty)
  {
    assert t.okExpr(e, KOf(c, loop)) == OkExpr(e, KOf(c, loop));
    assert Z.f.ty(e, c) == XTyOf(e, c);
  }

  lemma CondOk(Z: Site, t: Sts, e: Expr, c: Ctx, loop: Option<nat>)
    requires Real(Z, t) && c.g == Z.g && OkCond(e, KOf(c, loop))
    ensures t.okExpr(e, KOf(c, loop)) && Z.f.ty(e, c).Sc?
  {
    assert t.okExpr(e, KOf(c, loop)) == OkExpr(e, KOf(c, loop));
    assert Z.f.ty(e, c) == XTyOf(e, c);
  }

  lemma DeclExec(Z: Site, t: Sts, x: string, ty: Ty, e: Expr, env: Env, tr: seq<Event>, fuel: nat)
    requires Genuine(Z) && GenuineRun(Z, t)
    ensures var r := Z.f.eval(e, env, tr);
            t.exec(VarDecl(x, ty, e), env, tr, fuel) == if r.EV? then Normal(env[x := TV(r.val.ty, r.val.v)], r.tr)
                else Stopped(r, env)
  {
    var st := VarDecl(x, ty, e);
    assert t.exec(st, env, tr, fuel) == Exec(Z.w.o, Z.g, st, env, tr, fuel);
    assert Z.f.eval(e, env, tr) == Eval(Z.w.o, Z.g, e, env, tr);
  }

  lemma SimDecl(Z: Site, t: Sts, x: string, ty: Ty, e: Expr, c: Ctx, l: Around, s: Out, env: Env, tr: seq<Event>,
          cfg: Cfg, fuel: nat) returns (v: Via)
    requires Real(Z, t) && In(Z, c, s, env, tr, cfg)
    requires t.okStmt(VarDecl(x, ty, e), KOf(c, l.loop)) && Fits(Z, t.stmt(VarDecl(x, ty, e), c, s))
    ensures FlowPost(Z, t, c.defers, c, l, After(VarDecl(x, ty, e), c, s), s.n, t.stmt(VarDecl(x, ty, e), c, s), cfg,
                     t.exec(VarDecl(x, ty, e), env, tr, fuel), fuel, v)
  {
    DeclEq(Z, t, x, ty, e, c, l.loop, s);
    DeclExec(Z, t, x, ty, e, env, tr, fuel);
    v := DeclRun(Z, t, x, ty, e, c, l, s, t.stmt(VarDecl(x, ty, e), c, s), env, tr, cfg,
        t.exec(VarDecl(x, ty, e), env, tr, fuel), fuel);
  }

  /** `sF` and `done` are what the declaration lowers to and means. */
  lemma DeclRun(Z: Site, t: Sts, x: string, ty: Ty, e: Expr, c: Ctx, l: Around, s: Out, sF: Out, env: Env,
          tr: seq<Event>, cfg: Cfg, done: SO, fuel: nat) returns (v: Via)
    requires Real(Z, t) && In(Z, c, s, env, tr, cfg) && Fits(Z, sF)
    requires x !in c.locals && !ty.NilT? && t.okExpr(e, KOf(c, l.loop)) && Z.f.ty(e, c) == Sc(ty)
    requires var (s1, y) := Z.f.emit(e, c, AllocaAt(Tmp(s), s.n + 1, Bits(ty)));
             sF == W(s1, Store(Bits(ty), y, s.n + 1))
    requires var r := Z.f.eval(e, env, tr);
             done == if r.EV? then Normal(env[x := TV(r.val.ty, r.val.v)], r.tr) else Stopped(r, env)
    ensures FlowPost(Z, t, c.defers, c, l, c.(locals := c.locals[x := Local(s.n + 1, ty)]), s.n, sF, cfg, done, fuel, v)
  {
    var s0 := AllocaAt(Tmp(s), s.n + 1, Bits(ty));
    EmitFacts(Z, e, c, s0);
    var (s1, y) := Z.f.emit(e, c, s0);
    FitsExt(Z, s1, sF);
    FitsExt(Z, s0, s1);
    LocalsMore(c.locals, s.n, s0.n);
    var q := EvalIn(Z, t, e, c, l.loop, s0, env, tr, cfg);
    var out := Z.f.eval(e, env, tr);
    if out.EV? {
      v := DeclEnd(Z, c, x, ty, out.val.v, s, s0, s1, y, sF, env, cfg, q);
    } else {
      v := StoppedFlow(Z, t, c, l, c.(locals := c.locals[x := Local(s.n + 1, ty)]), s0.n, sF, cfg, out, env, fuel, q);
    }
  }

  lemma DeclEnd(Z: Site, c: Ctx, x: string, ty: Ty, a: int, s: Out, s0: Out, s1: Out, y: Opd, sF: Out, env: Env,
          cfg: Cfg, q: Got) returns (v: Via)
    requires Sound(Z) && x !in c.locals && !ty.NilT? && LocalsOk(c.locals, s.n) && s.n + 1 <= s1.n
    requires Ran(Z, s.n + 1, cfg, q) && In(Z, c, s1, env, q.cfg.tr, q.cfg) && Holds(Z.w, q.cfg, y, S(ty, a))
    requires s0 == AllocaAt(Tmp(s), s.n + 1, Bits(ty)) && Fits(Z, s0) && MemHas(Z.H, cfg.mem)
    requires sF == W(s1, Store(Bits(ty), y, s.n + 1)) && Fits(Z, sF)
    ensures Went(Z, s.n, cfg, v.k, v.cfg)
    ensures In(Z, c.(locals := c.locals[x := Local(s.n + 1, ty)]), sF, env[x := TV(ty, a)], q.cfg.tr, v.cfg)
  {
    SlotIn(Z, s, s.n + 1, Bits(ty), s0, cfg);
    Put(Z, s1, Store(Bits(ty), y, s.n + 1), sF);
    v := DeclStore(Z, c, x, ty, a, s, s1, y, env, cfg, q);
  }

  lemma DeclStore(Z: Site, c: Ctx, x: string, ty: Ty, a: int, s: Out, s1: Out, y: Opd, env: Env, cfg: Cfg, q: Got)
          returns (v: Via)
    requires Sound(Z) && x !in c.locals && !ty.NilT? && LocalsOk(c.locals, s.n) && s.n + 1 <= s1.n
    requires Ran(Z, s.n + 1, cfg, q) && In(Z, c, s1, env, q.cfg.tr, q.cfg) && Holds(Z.w, q.cfg, y, S(ty, a))
    requires s.n + 1 in q.cfg.mem && q.cfg.mem[s.n + 1].w == Bits(ty) && Has(Z, Pos(Z, s1), Store(Bits(ty), y, s.n + 1))
    ensures Went(Z, s.n, cfg, v.k, v.cfg)
    ensures In(Z, c.(locals := c.locals[x := Local(s.n + 1, ty)]), W(s1, Store(Bits(ty), y, s.n + 1)),
            env[x := TV(ty, a)], q.cfg.tr, v.cfg)
  {
    var slot, p := s.n + 1, Enc(Bits(ty), a);
    StoreAny(Z, s.n, Bits(ty), y, p, slot, cfg, q.k, q.cfg);
    v := Via(q.k + 1, SetMem(q.cfg, slot, Cell(Bits(ty), Some(p))), s1, c, LOk(None));
    RelDecl(env, c.locals, q.cfg.mem, s.n, x, ty, a, slot, s1.n);
    MemHasKept(Z.H, q.cfg.mem, v.cfg.mem);
  }

  lemma AssignEq(Z: Site, t: Sts, x: string, op: Option<BinOp>, e: Expr, c: Ctx, loop: Option<nat>, s: Out)
    requires Real(Z, t) && c.g == Z.g && t.okStmt(Assign(x, op, e), KOf(c, loop))
    ensures x in c.locals && t.okExpr(e, KOf(c, loop)) && Z.f.ty(e, c) == Sc(c.locals[x].ty)
            && (op.Some? ==> c.locals[x].ty.IntT?)
    ensures var lx := c.locals[x]; var (s1, v) := Z.f.emit(e, c, if op.None? then s else VarTail(lx, s));
            t.stmt(Assign(x, op, e), c, s) == AssignTail(lx, op, s.n + 1, v, s1)
  {
    var st, k := Assign(x, op, e), KOf(c, loop);
    assert t.okStmt(st, k) == OkStmt(st, k);
    TypedOk(Z, t, e, c.locals[x].ty, c, loop);
    var s0 := if op.None? then s else VarTail(SlotOf(c, x), s);
    assert t.stmt(st, c, s) == CStmt(st, c, s) && Z.f.emit(e, c, s0) == CExpr(e, c, s0);
  }

  lemma AssignExec(Z: Site, t: Sts, x: string, op: Option<BinOp>, e: Expr, env: Env, tr: seq<Event>, fuel: nat)
    requires Genuine(Z) && GenuineRun(Z, t)
    ensures var r := Z.f.eval(e, env, tr);
            t.exec(Assign(x, op, e), env, tr, fuel) == if r.EV? then Assigned(x, op, r.val, env, r.tr)
                else Stopped(r, env)
  {
    var st := Assign(x, op, e);
    assert t.exec(st, env, tr, fuel) == Exec(Z.w.o, Z.g, st, env, tr, fuel);
    assert Z.f.eval(e, env, tr) == Eval(Z.w.o, Z.g, e, env, tr);
  }

  lemma AssignStore(Z: Site, c: Ctx, x: string, a: int, n: nat, s: Out, y: Opd, env: Env, cfg: Cfg, k: nat, cfg1: Cfg)
          returns (v: Via)
    requires Sound(Z) && x in c.locals && Went(Z, n, cfg, k, cfg1) && In(Z, c, s, env, cfg1.tr, cfg1)
    requires Holds(Z.w, cfg1, y, S(c.locals[x].ty, a))
             && Has(Z, Pos(Z, s), Store(Bits(c.locals[x].ty), y, c.locals[x].slot))
    ensures Went(Z, n, cfg, v.k, v.cfg)
    ensures In(Z, c, W(s, Store(Bits(c.locals[x].ty), y, c.locals[x].slot)), env[x := TV(c.locals[x].ty, a)], cfg1.tr,
            v.cfg)
  {
    var lx := c.locals[x];
    var p := Enc(Bits(lx.ty), a);
    StoreAny(Z, n, Bits(lx.ty), y, p, lx.slot, cfg, k, cfg1);
    v := Via(k + 1, SetMem(cfg1, lx.slot, Cell(Bits(lx.ty), Some(p))), s, c, LOk(None));
    RelAssign(env, c.locals, cfg1.mem, s.n, x, a);
    MemHasKept(Z.H, cfg1.mem, v.cfg.mem);
  }

  lemma SimAssign(Z: Site, t: Sts, x: string, e: Expr, c: Ctx, l: Around, s: Out, env: Env, tr: seq<Event>, cfg: Cfg,
          fuel: nat) returns (v: Via)
    requires Real(Z, t) && In(Z, c, s, env, tr, cfg)
    requires t.okStmt(Assign(x, None, e), KOf(c, l.loop)) && Fits(Z, t.stmt(Assign(x, None, e), c, s))
    ensures FlowPost(Z, t, c.defers, c, l, c, s.n, t.stmt(Assign(x, None, e), c, s), cfg,
            t.exec(Assign(x, None, e), env, tr, fuel), fuel, v)
  {
    AssignEq(Z, t, x, None, e, c, l.loop, s);
    AssignExec(Z, t, x, None, e, env, tr, fuel);
    EmitFacts(Z, e, c, s);
    var (s1, y) := Z.f.emit(e, c, s);
    var sF, lx := t.stmt(Assign(x, None, e), c, s), c.locals[x];
    FitsExt(Z, s1, sF);
    var q := EvalIn(Z, t, e, c, l.loop, s, env, tr, cfg);
    var out := Z.f.eval(e, env, tr);
    if out.EV? {
      Put(Z, s1, Store(Bits(lx.ty), y, lx.slot), sF);
      v := AssignStore(Z, c, x, out.val.v, s.n, s1, y, env, cfg, q.k, q.cfg);
    } else {
      v := StoppedFlow(Z, t, c, l, c, s.n, sF, cfg, out, env, fuel, q);
    }
  }

  /** The compound operator on the value loaded before the operand. */
  lemma UpdateOp(Z: Site, c: Ctx, ty: Ty, w: nat, op: BinOp, n: nat, cur: nat, y: Opd, a: int, b: int, s: Out,
          env: Env, cfg: Cfg, q: Got) returns (q1: Got)
    requires Sound(Z) && ty.IntT? && w == Bits(ty) && n <= s.n && Ran(Z, n, cfg, q) && In(Z, c, s, env, q.cfg.tr, q.cfg)
    requires Holds(Z.w, q.cfg, Reg(cur), S(ty, a)) && Holds(Z.w, q.cfg, y, S(ty, b))
    requires Has(Z, Pos(Z, s), Bin(s.n + 1, LowerOp(op, Signed(ty)), w, Reg(cur), y))
    ensures var z := SBin(op, ty, a, b); var s1 := ArithTail(op, ty, Reg(cur), y, s);
            if z.Some? then
              && Ran(Z, n, cfg, q1) && q1.cfg.tr == q.cfg.tr && In(Z, c, s1, env, q.cfg.tr, q1.cfg)
              && Holds(Z.w, q1.cfg, Reg(s.n + 1), S(ty, z.value))
            else Steps(Z.f.step, cfg, q1.k) == Done(Ended(Undefined(q.cfg.tr)))
  {
    var z := SBin(op, ty, a, b);
    ArithAgrees(op, ty, a, b);
    BinStep(Z, n, s.n + 1, LowerOp(op, Signed(ty)), w, Reg(cur), y, Enc(w, a), Enc(w, b), cfg, q);
    q1 := q.(k := q.k + 1);
    if z.Some? {
      q1 := On(q, SetReg(q.cfg, s.n + 1, Word(w, Enc(w, z.value))));
      KeepIn(Z, c, s, env, q.cfg.tr, q.cfg, ArithTail(op, ty, Reg(cur), y, s), q.cfg.tr, q1.cfg);
    }
  }

  lemma UpdateLines(Z: Site, lx: Local, op: BinOp, cur: nat, y: Opd, s: Out)
    requires Fits(Z, AssignTail(lx, Some(op), cur, y, s))
    ensures Has(Z, Pos(Z, s), Bin(s.n + 1, LowerOp(op, Signed(lx.ty)), Bits(lx.ty), Reg(cur), y))
    ensures Has(Z, Pos(Z, s) + 1, Store(Bits(lx.ty), Reg(s.n + 1), lx.slot))
  {
    Place(Z, AssignTail(lx, Some(op), cur, y, s), |s.body|);
        Place(Z, AssignTail(lx, Some(op), cur, y, s), |s.body| + 1);
  }

  /** The operator, and the store of its result. */
  lemma UpdateSteps(Z: Site, t: Sts, c: Ctx, l: Around, x: string, op: BinOp, n: nat, cur: nat, y: Opd, a: Val, s: Out,
          env: Env, cfg: Cfg, fuel: nat, q: Got) returns (v: Via)
    requires Sound(Z) && x in c.locals && c.locals[x].ty.IntT? && n < cur <= s.n && n <= s.n && Bound(y, s.n)
    requires Ran(Z, n, cfg, q) && In(Z, c, s, env, q.cfg.tr, q.cfg)
    requires x in env && Holds(Z.w, q.cfg, Reg(cur), S(c.locals[x].ty, env[x].v)) && a.S? && a.ty == c.locals[x].ty
             && Holds(Z.w, q.cfg, y, a)
    requires Fits(Z, AssignTail(c.locals[x], Some(op), cur, y, s))
    ensures FlowPost(Z, t, c.defers, c, l, c, n, AssignTail(c.locals[x], Some(op), cur, y, s), cfg,
                     Assigned(x, Some(op), a, env, q.cfg.tr), fuel, v)
  {
    var lx := c.locals[x];
    UpdateLines(Z, lx, op, cur, y, s);
    var q1 := UpdateOp(Z, c, lx.ty, Bits(lx.ty), op, n, cur, y, env[x].v, a.v, s, env, cfg, q);
    v := UpdateStore(Z, t, c, l, x, op, n, cur, y, a, SBin(op, lx.ty, env[x].v, a.v), s, env, cfg, q.cfg.tr, fuel, q1);
  }

  lemma UpdateStore(Z: Site, t: Sts, c: Ctx, l: Around, x: string, op: BinOp, n: nat, cur: nat, y: Opd, a: Val,
          z: Option<int>, s: Out, env: Env, cfg: Cfg, tr: seq<Event>, fuel: nat, q: Got) returns (v: Via)
    requires Sound(Z) && x in c.locals && x in env && env[x].ty == c.locals[x].ty
             && z == SBin(op, env[x].ty, env[x].v, a.v)
    requires Has(Z, Pos(Z, s) + 1, Store(Bits(c.locals[x].ty), Reg(s.n + 1), c.locals[x].slot))
    requires if z.Some? then
               && Ran(Z, n, cfg, q) && q.cfg.tr == tr
                  && In(Z, c, ArithTail(op, c.locals[x].ty, Reg(cur), y, s), env, tr, q.cfg)
               && Holds(Z.w, q.cfg, Reg(s.n + 1), S(c.locals[x].ty, z.value))
             else Steps(Z.f.step, cfg, q.k) == Done(Ended(Undefined(tr)))
    ensures FlowPost(Z, t, c.defers, c, l, c, n, AssignTail(c.locals[x], Some(op), cur, y, s), cfg,
            Assigned(x, Some(op), a, env, tr), fuel, v)
  {
    if z.Some? {
      v := AssignStore(Z, c, x, z.value, n, ArithTail(op, c.locals[x].ty, Reg(cur), y, s), Reg(s.n + 1), env, cfg, q.k,
          q.cfg);
    } else {
      v := Via(q.k, cfg, s, c, LOk(None));
    }
  }

  lemma SimUpdate(Z: Site, t: Sts, x: string, op: BinOp, e: Expr, c: Ctx, l: Around, s: Out, env: Env, tr: seq<Event>,
          cfg: Cfg, fuel: nat) returns (v: Via)
    requires Real(Z, t) && In(Z, c, s, env, tr, cfg)
    requires t.okStmt(Assign(x, Some(op), e), KOf(c, l.loop)) && Fits(Z, t.stmt(Assign(x, Some(op), e), c, s))
    ensures FlowPost(Z, t, c.defers, c, l, c, s.n, t.stmt(Assign(x, Some(op), e), c, s), cfg,
                     t.exec(Assign(x, Some(op), e), env, tr, fuel), fuel, v)
  {
    var st := Assign(x, Some(op), e);
    AssignEq(Z, t, x, Some(op), e, c, l.loop, s);
    AssignExec(Z, t, x, Some(op), e, env, tr, fuel);
    v := UpdateRun(Z, t, x, op, e, c, l, s, t.stmt(st, c, s), env, tr, cfg, t.exec(st, env, tr, fuel), fuel);
  }

  lemma UpdateRun(Z: Site, t: Sts, x: string, op: BinOp, e: Expr, c: Ctx, l: Around, s: Out, sF: Out, env: Env,
          tr: seq<Event>, cfg: Cfg, done: SO, fuel: nat) returns (v: Via)
    requires Real(Z, t) && In(Z, c, s, env, tr, cfg) && Fits(Z, sF)
    requires x in c.locals && c.locals[x].ty.IntT? && t.okExpr(e, KOf(c, l.loop)) && Z.f.ty(e, c) == Sc(c.locals[x].ty)
    requires var (s1, y) := Z.f.emit(e, c, VarTail(c.locals[x], s));
             sF == AssignTail(c.locals[x], Some(op), s.n + 1, y, s1)
    requires var r := Z.f.eval(e, env, tr);
             done == if r.EV? then Assigned(x, Some(op), r.val, env, r.tr) else Stopped(r, env)
    ensures FlowPost(Z, t, c.defers, c, l, c, s.n, sF, cfg, done, fuel, v)
  {
    var lx := c.locals[x];
    var s0 := VarTail(lx, s);
    var (s1, y) := Z.f.emit(e, c, s0);
    EmitFacts(Z, e, c, s0);
    FitsExt(Z, s1, sF);
    FitsExt(Z, s0, s1);
    Put(Z, s, Load(s.n + 1, Bits(lx.ty), lx.slot), s0);
    var q0 := LoadLocal(Z, c, x, s, env, tr, cfg);
    var q := EvalIn(Z, t, e, c, l.loop, s0, env, tr, q0.cfg);
    v := UpdateEnd(Z, t, x, op, c, l, s.n, s0.n, s1, y, sF, env, cfg, q0, Z.f.eval(e, env, tr), q, done, fuel);
  }

  /** ... once the variable is loaded and the operand evaluated. */
  lemma UpdateEnd(Z: Site, t: Sts, x: string, op: BinOp, c: Ctx, l: Around, n: nat, m: nat, s1: Out, y: Opd, sF: Out,
          env: Env, cfg: Cfg, q0: Got, out: EO, q: Got, done: SO, fuel: nat) returns (v: Via)
    requires Sound(Z) && x in c.locals && c.locals[x].ty.IntT? && m == n + 1 <= s1.n && Bound(y, s1.n)
             && Ran(Z, n, cfg, q0)
    requires x in env && Holds(Z.w, q0.cfg, Reg(m), S(c.locals[x].ty, env[x].v)) && Fits(Z, sF)
             && sF == AssignTail(c.locals[x], Some(op), m, y, s1)
    requires if out.EV? then Ran(Z, m, q0.cfg, q) && In(Z, c, s1, env, out.tr, q.cfg) && Holds(Z.w, q.cfg, y, out.val)
                               && TyIs(out.val, Sc(c.locals[x].ty))
             else StopAt(Z, t, c, m, q0.cfg, out, env, q)
    requires done == if out.EV? then Assigned(x, Some(op), out.val, env, out.tr) else Stopped(out, env)
    ensures FlowPost(Z, t, c.defers, c, l, c, n, sF, cfg, done, fuel, v)
  {
    if out.EV? {
      v := UpdateGo(Z, t, x, op, c, l, n, m, s1, y, env, cfg, q0, out.val, q, fuel);
    } else {
      v := StoppedAfter(Z, t, c, l, c, n, sF, cfg, q0.k, q0.cfg, m, out, env, fuel, q);
    }
  }

  lemma UpdateGo(Z: Site, t: Sts, x: string, op: BinOp, c: Ctx, l: Around, n: nat, m: nat, s1: Out, y: Opd, env: Env,
          cfg: Cfg, q0: Got, a: Val, q: Got, fuel: nat) returns (v: Via)
    requires Sound(Z) && x in c.locals && c.locals[x].ty.IntT? && m == n + 1 <= s1.n && Bound(y, s1.n)
    requires Ran(Z, n, cfg, q0) && Ran(Z, m, q0.cfg, q) && In(Z, c, s1, env, q.cfg.tr, q.cfg)
    requires x in env && Holds(Z.w, q0.cfg, Reg(m), S(c.locals[x].ty, env[x].v)) && a.S? && a.ty == c.locals[x].ty
             && Holds(Z.w, q.cfg, y, a)
    requires Fits(Z, AssignTail(c.locals[x], Some(op), m, y, s1))
    ensures FlowPost(Z, t, c.defers, c, l, c, n, AssignTail(c.locals[x], Some(op), m, y, s1), cfg,
                     Assigned(x, Some(op), a, env, q.cfg.tr), fuel, v)
  {
    RanAfter(Z, n, cfg, q0, m, q);
    HoldsKept(Z.w, m, q0.cfg, q.cfg, Reg(m), S(c.locals[x].ty, env[x].v));
    v := UpdateSteps(Z, t, c, l, x, op, n, m, y, a, s1, env, cfg, fuel, q.(k := q0.k + q.k));
  }

  lemma LoadLocal(Z: Site, c: Ctx, x: string, s: Out, env: Env, tr: seq<Event>, cfg: Cfg) returns (q: Got)
    requires Sound(Z) && In(Z, c, s, env, tr, cfg) && x in c.locals
    requires Has(Z, Pos(Z, s), Load(s.n + 1, Bits(c.locals[x].ty), c.locals[x].slot))
    ensures Ran(Z, s.n, cfg, q) && In(Z, c, VarTail(c.locals[x], s), env, tr, q.cfg)
    ensures Holds(Z.w, q.cfg, Reg(s.n + 1), S(c.locals[x].ty, env[x].v))
  {
    var lx := c.locals[x];
    var p := Enc(Bits(lx.ty), env[x].v);
    LoadStep(Z, s.n, s.n + 1, Bits(lx.ty), lx.slot, p, cfg, Here(cfg, s));
    q := On(Here(cfg, s), SetReg(cfg, s.n + 1, Word(Bits(lx.ty), p)));
    KeepIn(Z, c, s, env, tr, cfg, VarTail(lx, s), tr, q.cfg);
  }

  // --- expression statements, traps, jumps and leaves ------------------------------------------------

  lemma SimExprStmt(Z: Site, t: Sts, e: Expr, c: Ctx, l: Around, s: Out, env: Env, tr: seq<Event>, cfg: Cfg, fuel: nat)
          returns (v: Via)
    requires Real(Z, t) && In(Z, c, s, env, tr, cfg)
    requires t.okStmt(ExprStmt(e), KOf(c, l.loop)) && Fits(Z, t.stmt(ExprStmt(e), c, s))
    ensures FlowPost(Z, t, c.defers, c, l, c, s.n, t.stmt(ExprStmt(e), c, s), cfg, t.exec(ExprStmt(e), env, tr, fuel),
            fuel, v)
  {
    var st, k := ExprStmt(e), KOf(c, l.loop);
    assert t.okStmt(st, k) == OkStmt(st, k) && t.okExpr(e, k) == OkExpr(e, k);
    assert t.stmt(st, c, s) == CStmt(st, c, s) && Z.f.emit(e, c, s) == CExpr(e, c, s);
    assert t.exec(st, env, tr, fuel) == Exec(Z.w.o, Z.g, st, env, tr, fuel);
    assert Z.f.eval(e, env, tr) == Eval(Z.w.o, Z.g, e, env, tr);
    var q := EvalIn(Z, t, e, c, l.loop, s, env, tr, cfg);
    var out := Z.f.eval(e, env, tr);
    if out.EV? {
      v := Via(q.k, q.cfg, s, c, LOk(None));
    } else {
      v := StoppedFlow(Z, t, c, l, c, s.n, t.stmt(st, c, s), cfg, out, env, fuel, q);
    }
  }

  lemma TrapEq(Z: Site, t: Sts, e: Expr, c: Ctx, loop: Option<nat>, s: Out)
    requires Real(Z, t) && c.g == Z.g && t.okStmt(Stmt.Trap(e), KOf(c, loop))
    ensures t.okExpr(e, KOf(c, loop)) && Z.f.ty(e, c) == Sc(ERROR_CODE)
    ensures var (s1, v) := Z.f.emit(e, c, s); t.stmt(Stmt.Trap(e), c, s) == TrapTail(v, s1)
  {
    var st, k := Stmt.Trap(e), KOf(c, loop);
    assert t.okStmt(st, k) == OkStmt(st, k);
    TypedOk(Z, t, e, ERROR_CODE, c, loop);
    assert t.stmt(st, c, s) == CStmt(st, c, s) && Z.f.emit(e, c, s) == CExpr(e, c, s);
  }

  lemma TrapExec(Z: Site, t: Sts, e: Expr, env: Env, tr: seq<Event>, fuel: nat)
    requires Genuine(Z) && GenuineRun(Z, t)
    ensures var r := Z.f.eval(e, env, tr);
            t.exec(Stmt.Trap(e), env, tr, fuel) == if r.EV? then Halted(Failsafe(Z.w.o, Enc(32, r.val.v), r.tr))
                else Stopped(r, env)
  {
    var st := Stmt.Trap(e);
    assert t.exec(st, env, tr, fuel) == Exec(Z.w.o, Z.g, st, env, tr, fuel);
    assert Z.f.eval(e, env, tr) == Eval(Z.w.o, Z.g, e, env, tr);
  }

  lemma SimTrap(Z: Site, t: Sts, e: Expr, c: Ctx, l: Around, s: Out, env: Env, tr: seq<Event>, cfg: Cfg, fuel: nat)
          returns (v: Via)
    requires Real(Z, t) && In(Z, c, s, env, tr, cfg)
    requires t.okStmt(Stmt.Trap(e), KOf(c, l.loop)) && Fits(Z, t.stmt(Stmt.Trap(e), c, s))
    ensures FlowPost(Z, t, c.defers, c, l, c, s.n, t.stmt(Stmt.Trap(e), c, s), cfg, t.exec(Stmt.Trap(e), env, tr, fuel),
            fuel, v)
  {
    TrapEq(Z, t, e, c, l.loop, s);
    TrapExec(Z, t, e, env, tr, fuel);
    v := TrapRun(Z, t, e, c, l, s, t.stmt(Stmt.Trap(e), c, s), env, tr, cfg, t.exec(Stmt.Trap(e), env, tr, fuel), fuel);
  }

  lemma TrapRun(Z: Site, t: Sts, e: Expr, c: Ctx, l: Around, s: Out, sF: Out, env: Env, tr: seq<Event>, cfg: Cfg,
          done: SO, fuel: nat) returns (v: Via)
    requires Real(Z, t) && In(Z, c, s, env, tr, cfg) && Fits(Z, sF) && t.okExpr(e, KOf(c, l.loop))
             && Z.f.ty(e, c) == Sc(ERROR_CODE)
    requires var (s1, y) := Z.f.emit(e, c, s); sF == TrapTail(y, s1)
    requires var r := Z.f.eval(e, env, tr);
             done == if r.EV? then Halted(Failsafe(Z.w.o, Enc(32, r.val.v), r.tr)) else Stopped(r, env)
    ensures FlowPost(Z, t, c.defers, c, l, c, s.n, sF, cfg, done, fuel, v)
  {
    EmitFacts(Z, e, c, s);
    var (s1, y) := Z.f.emit(e, c, s);
    FitsExt(Z, s1, sF);
    var q := EvalIn(Z, t, e, c, l.loop, s, env, tr, cfg);
    var out := Z.f.eval(e, env, tr);
    if out.EV? {
      TrapLines(Z, y, s1);
      TrapSteps(Z, s.n, s1.n + 1, y, Enc(32, out.val.v), cfg, q);
      v := Via(q.k + 2, cfg, s, c, LOk(None));
    } else {
      v := StoppedFlow(Z, t, c, l, c, s.n, sF, cfg, out, env, fuel, q);
    }
  }

  lemma TrapLines(Z: Site, y: Opd, s: Out)
    requires Fits(Z, TrapTail(y, s))
    ensures Has(Z, Pos(Z, s), CallFailsafe(s.n + 1, y)) && Has(Z, Pos(Z, s) + 1, CallExit(Reg(s.n + 1)))
  {
    Place(Z, TrapTail(y, s), |s.body|); Place(Z, TrapTail(y, s), |s.body| + 1);
  }

  /** A jump out of the innermost loop's body. */
  lemma SimJump(Z: Site, t: Sts, st: Stmt, c: Ctx, l: Around, s: Out, env: Env, tr: seq<Event>, cfg: Cfg, fuel: nat)
          returns (v: Via)
    requires Real(Z, t) && In(Z, c, s, env, tr, cfg) && AroundOk(Z, c, l) && (st.Break? || st.Continue?)
    requires t.okStmt(st, KOf(c, l.loop)) && Fits(Z, t.stmt(st, c, s))
    ensures FlowPost(Z, t, c.defers, c, l, c, s.n, t.stmt(st, c, s), cfg, t.exec(st, env, tr, fuel), fuel, v)
  {
    var k := KOf(c, l.loop);
    assert t.okStmt(st, k) == OkStmt(st, k);
    assert t.stmt(st, c, s) == CStmt(st, c, s);
    assert t.exec(st, env, tr, fuel) == Exec(Z.w.o, Z.g, st, env, tr, fuel);
    v := JumpRun(Z, t, st.Break?, c, l, s, t.stmt(st, c, s), env, tr, cfg, fuel);
  }

  lemma JumpRun(Z: Site, t: Sts, breaks: bool, c: Ctx, l: Around, s: Out, sF: Out, env: Env, tr: seq<Event>, cfg: Cfg,
          fuel: nat) returns (v: Via)
    requires Sound(Z) && In(Z, c, s, env, tr, cfg) && AroundOk(Z, c, l) && OkJump(KOf(c, l.loop)) && c.loops != []
             && Fits(Z, sF)
    requires sF == BrTo(s, if breaks then c.loops[|c.loops| - 1].done else c.loops[|c.loops| - 1].head)
    ensures FlowPost(Z, t, c.defers, c, l, c, s.n, sF, cfg, if breaks then Broke(env, tr)
            else Continued(env, tr), fuel, v)
  {
    var lp := c.loops[|c.loops| - 1];
    var to, p := if breaks then lp.done else lp.head, if breaks then l.done else l.head;
    Put(Z, s, Br(to), sF);
    BrStep(Z, s.n, to, p, cfg, Here(cfg, s));
    v := Via(1, cfg.(pc := p + 1), s, c, LOk(None));
  }

  lemma SimLeave(Z: Site, t: Sts, st: Stmt, c: Ctx, l: Around, s: Out, env: Env, tr: seq<Event>, cfg: Cfg, fuel: nat)
          returns (v: Via)
    requires Real(Z, t) && In(Z, c, s, env, tr, cfg) && (st.Pass? || st.Fail? || st.Exit?)
    requires t.okStmt(st, KOf(c, l.loop)) && Fits(Z, t.stmt(st, c, s))
    ensures FlowPost(Z, t, c.defers, c, l, c, s.n, t.stmt(st, c, s), cfg, t.exec(st, env, tr, fuel), fuel, v)
  {
    var k := KOf(c, l.loop);
    var m := match st case Pass(r) => LOk(r) case Fail(e) => LFail(e) case Exit(e) => LExit(e) case _ => LOk(None);
    assert t.okStmt(st, k) == OkStmt(st, k);
    assert InDefer(k) == InDefer(KOf(c, None));
    assert t.okUnwind(c.defers, m, c) == OkUnwind(c.defers, m, c);
    assert t.stmt(st, c, s) == CStmt(st, c, s);
    assert t.unwind(c.defers, m, c, s) == CUnwind(c.defers, m, c, s);
    assert t.exec(st, env, tr, fuel) == Exec(Z.w.o, Z.g, st, env, tr, fuel);
    v := LeaveAt(Z, t, m, c, l, s, t.stmt(st, c, s), env, tr, cfg, t.exec(st, env, tr, fuel), fuel);
  }

  lemma LeaveAt(Z: Site, t: Sts, m: Leave, c: Ctx, l: Around, s: Out, sF: Out, env: Env, tr: seq<Event>, cfg: Cfg,
          done: SO, fuel: nat) returns (v: Via)
    requires In(Z, c, s, env, tr, cfg) && !c.inDefer && t.okUnwind(c.defers, m, c) && sF == t.unwind(c.defers, m, c, s)
             && Fits(Z, sF)
    requires done.Leaving? && done.env == env && done.tr == tr && done.left == [] && LeaveIs(done.op, m, cfg, s.n)
    ensures FlowPost(Z, t, c.defers, c, l, c, s.n, sF, cfg, done, fuel, v)
  {
    assert c.defers + [] == c.defers;
    v := Via(0, cfg, s, c, m);
  }

  // --- joins ----------------------------------------------------------------------------------------

  /** After a branch's block: the jump to the label that ends the whole, if the block falls through. */
  lemma FlowJoin(Z: Site, t: Sts, fs: seq<seq<seq<Stmt>>>, c: Ctx, l: Around, n: nat, b: Out, done: Lbl, p: nat,
          sF: Out, cfg: Cfg, out: SO, fuel: nat, v: Via) returns (v1: Via)
    requires Sound(Z) && FlowPost(Z, t, fs, c, l, c, n, b, cfg, out, fuel, v)
    requires !b.terminated ==> Has(Z, Pos(Z, b), Br(done))
    requires Has(Z, p, Label(done)) && Pos(Z, sF) == p + 1 && !sF.terminated && b.n <= sF.n
    ensures FlowPost(Z, t, fs, c, l, c, n, sF, cfg, out, fuel, v1)
  {
    v1 := v;
    if out.Normal? {
      var c1 := v.cfg.(pc := p + 1);
      Found(Z, p, done);
      Snoc(Z.f.step, cfg, v.k, v.cfg);
      assert Z.f.step(v.cfg) == Step(Z.w, v.cfg);
      v1 := v.(k := v.k + 1, cfg := c1);
      LocalsMore(c.locals, b.n, sF.n);
    }
  }

  /** A branch's block, run from `q`, joins what follows the whole. */
  lemma BranchEnd(Z: Site, t: Sts, c: Ctx, l: Around, n: nat, m: nat, b: Out, done: Lbl, p: nat, sF: Out, cfg: Cfg,
          q: Got, out: SO, fuel: nat, w: Via) returns (v: Via)
    requires Sound(Z) && Ran(Z, n, cfg, q) && n <= m && FlowPost(Z, t, c.defers, c, l, c, m, b, q.cfg, out, fuel, w)
    requires !b.terminated ==> Has(Z, Pos(Z, b), Br(done))
    requires Has(Z, p, Label(done)) && Pos(Z, sF) == p + 1 && !sF.terminated && b.n <= sF.n
    ensures FlowPost(Z, t, c.defers, c, l, c, n, sF, cfg, out, fuel, v)
  {
    var w1 := FlowJoin(Z, t, c.defers, c, l, m, b, done, p, sF, q.cfg, out, fuel, w);
    FlowAfter(Z, t, c.defers, c, l, c, n, sF, cfg, q.k, q.cfg, m, out, fuel, w1);
    v := w1.(k := q.k + w1.k);
  }

  lemma BrToLine(Z: Site, b: Out, l: Lbl)
    requires Fits(Z, BrTo(b, l))
    ensures Fits(Z, b) && (!b.terminated ==> Has(Z, Pos(Z, b), Br(l)))
  {
    FitsExt(Z, b, BrTo(b, l));
    if !b.terminated { Put(Z, b, Br(l), BrTo(b, l)); }
  }

  lemma StartLine(Z: Site, s: Out, l: Lbl)
    requires Fits(Z, Start(s, l))
    ensures Fits(Z, s) && Has(Z, Pos(Z, s), Label(l)) && Pos(Z, Start(s, l)) == Pos(Z, s) + 1
  {
    FitsExt(Z, s, Start(s, l));
    Put(Z, s, Label(l), Start(s, l));
  }

  // --- if ------------------------------------------------------------------------------------------------

  /** The outputs within an `if`: after the condition, after the first branch, before the end. */
  datatype IfOut = IfOut(s1: Out, x: Opd, h: Out, b: Out, s2: Out, e0: Out, eb: Out, s3: Out)

  function IfParts(Z: Site, t: Sts, e: Expr, th: seq<Stmt>, els: Option<Stmt>, c: Ctx, s: Out): IfOut {
    var (s1, x) := Cond(Z, e, c, IfLabels(s, els.Some?));
    var h := IfTest(s, els.Some?, x, s1);
    var b := t.block(th, c, h);
    var s2 := BrTo(b, IfDone(s));
    var e0 := Start(s2, IfElse(s, true));
    var eb := if els.Some? then t.stmt(els.value, c, e0) else e0;
    IfOut(s1, x, h, b, s2, e0, eb, if els.Some? then BrTo(eb, IfDone(s)) else s2)
  }

  lemma IfEq(Z: Site, t: Sts, e: Expr, th: seq<Stmt>, els: Option<Stmt>, c: Ctx, s: Out)
    requires Genuine(Z) && GenuineOut(t)
    ensures var p := IfParts(Z, t, e, th, els, c, s);
            && t.stmt(If(e, th, els), c, s) == Start(p.s3, IfDone(s))
            && Ext(IfLabels(s, els.Some?), p.s1) && Ext(p.h, p.b) && (els.Some? ==> Ext(p.e0, p.eb))
               && (!s.terminated ==> !p.s1.terminated)
  {
    var st, s0 := If(e, th, els), IfLabels(s, els.Some?);
    CondIs(Z, e, c, s0);
    CondFacts(Z, e, c, s0);
    var p := IfParts(Z, t, e, th, els, c, s);
    BlockExt(t, th, c, p.h);
    assert t.block(th, c, p.h) == CBlock(th, c, p.h);
    if els.Some? { assert t.stmt(els.value, c, p.e0) == CStmt(els.value, c, p.e0); }
    assert t.stmt(st, c, s) == CStmt(st, c, s);
    assert CStmt(st, c, s) == CIf(e, th, els, c, s);
  }

  lemma IfOk(Z: Site, t: Sts, e: Expr, th: seq<Stmt>, els: Option<Stmt>, c: Ctx, loop: Option<nat>, s: Out)
    requires Real(Z, t) && c.g == Z.g && t.okStmt(If(e, th, els), KOf(c, loop))
    ensures t.okExpr(e, KOf(c, loop)) && Z.f.ty(e, c).Sc? && t.okBlock(th, KOf(c, loop))
    ensures els.Some? ==> After(els.value, c, s) == c && t.okStmt(els.value, KOf(c, loop))
  {
    var st, k := If(e, th, els), KOf(c, loop);
    assert t.okStmt(st, k) == OkStmt(st, k) && t.okBlock(th, k) == OkBlock(th, k);
    assert els.Some? ==> t.okStmt(els.value, k) == OkStmt(els.value, k);
    CondOk(Z, t, e, c, loop);
  }

  /** What an `if` does once its condition has been evaluated. */
  ghost function IfDoes(Z: Site, t: Sts, r: EO, th: seq<Stmt>, els: Option<Stmt>, env: Env, fuel: nat): SO {
    if !r.EV? then Stopped(r, env)
    else if r.val.v != 0 then t.scope(th, env, r.tr, fuel)
    else if els.Some? then t.exec(els.value, env, r.tr, fuel)
    else Normal(env, r.tr)
  }

  lemma IfExec(Z: Site, t: Sts, e: Expr, th: seq<Stmt>, els: Option<Stmt>, env: Env, tr: seq<Event>, fuel: nat)
    requires Genuine(Z) && GenuineRun(Z, t)
    ensures t.exec(If(e, th, els), env, tr, fuel) == IfDoes(Z, t, Z.f.eval(e, env, tr), th, els, env, fuel)
  {
    var st := If(e, th, els);
    var r := Eval(Z.w.o, Z.g, e, env, tr);
    assert t.exec(st, env, tr, fuel) == Exec(Z.w.o, Z.g, st, env, tr, fuel);
    assert Z.f.eval(e, env, tr) == r;
    if r.EV? {
      assert t.scope(th, env, r.tr, fuel) == ExecBlock(Z.w.o, Z.g, th, env, r.tr, fuel);
      assert els.Some? ==> t.exec(els.value, env, r.tr, fuel) == Exec(Z.w.o, Z.g, els.value, env, r.tr, fuel);
    }
  }

  /** The lines of an `if` around its parts. */
  ghost predicate IfPlaced(Z: Site, hasElse: bool, s: Out, p: IfOut) {
    && Fits(Z, p.s1) && Fits(Z, p.h) && Fits(Z, p.b)
    && Has(Z, Pos(Z, p.s1), CondBr(p.x, IfThen(s), IfElse(s, hasElse))) && Has(Z, Pos(Z, p.s1) + 1, Label(IfThen(s)))
    && Pos(Z, p.h) == Pos(Z, p.s1) + 2
    && (!p.b.terminated ==> Has(Z, Pos(Z, p.b), Br(IfDone(s))))
    && Has(Z, Pos(Z, p.s3), Label(IfDone(s)))
    && (hasElse ==>
          && Fits(Z, p.e0) && Fits(Z, p.eb) && Has(Z, Pos(Z, p.s2), Label(IfElse(s, true)))
             && Pos(Z, p.e0) == Pos(Z, p.s2) + 1
          && (!p.eb.terminated ==> Has(Z, Pos(Z, p.eb), Br(IfDone(s)))))
  }

  lemma IfLines(Z: Site, hasElse: bool, s: Out, p: IfOut)
    requires p.h == IfTest(s, hasElse, p.x, p.s1) && p.s2 == BrTo(p.b, IfDone(s))
             && p.e0 == Start(p.s2, IfElse(s, true))
    requires p.s3 == (if hasElse then BrTo(p.eb, IfDone(s)) else p.s2) && Ext(p.h, p.b) && (hasElse ==> Ext(p.e0, p.eb))
    requires Fits(Z, Start(p.s3, IfDone(s)))
    ensures IfPlaced(Z, hasElse, s, p)
  {
    StartLine(Z, p.s3, IfDone(s));
    if hasElse {
      BrToLine(Z, p.eb, IfDone(s));
      FitsExt(Z, p.e0, p.eb);
      StartLine(Z, p.s2, IfElse(s, true));
    }
    BrToLine(Z, p.b, IfDone(s));
    FitsExt(Z, p.h, p.b);
    ForkLines(Z, p.s1, p.x, IfThen(s), IfElse(s, hasElse), p.h);
  }

  /** A two-way branch and the label after it. */
  lemma ForkLines(Z: Site, s: Out, x: Opd, yes: Lbl, no: Lbl, h: Out)
    requires h == Start(End(s, CondBr(x, yes, no)), yes) && Fits(Z, h)
    ensures Fits(Z, s) && Has(Z, Pos(Z, s), CondBr(x, yes, no)) && Has(Z, Pos(Z, s) + 1, Label(yes))
            && Pos(Z, h) == Pos(Z, s) + 2
  {
    var b := End(s, CondBr(x, yes, no));
    StartLine(Z, b, yes);
    Put(Z, s, CondBr(x, yes, no), b);
    FitsExt(Z, s, b);
  }

  /** The counters and flags of the outputs within an `if`. */
  lemma IfShape(Z: Site, hasElse: bool, s: Out, p: IfOut, sF: Out)
    requires p.h == IfTest(s, hasElse, p.x, p.s1) && p.s2 == BrTo(p.b, IfDone(s))
             && p.e0 == Start(p.s2, IfElse(s, true))
    requires p.s3 == (if hasElse then BrTo(p.eb, IfDone(s)) else p.s2) && Ext(p.h, p.b)
    requires (if hasElse then Ext(p.e0, p.eb) else p.eb == p.e0)
    requires sF == Start(p.s3, IfDone(s)) && Ext(IfLabels(s, hasElse), p.s1)
    ensures s.n <= p.s1.n == p.h.n <= p.b.n == p.s2.n == p.e0.n <= p.eb.n <= sF.n
    ensures Pos(Z, sF) == Pos(Z, p.s3) + 1 && !sF.terminated && !p.h.terminated && !p.e0.terminated
    ensures Pos(Z, p.h) == Pos(Z, p.s1) + 2 && Pos(Z, p.e0) == Pos(Z, p.s2) + 1
  {}

  /** What running an `if` needs of its parts. */
  ghost predicate IfReady(Z: Site, t: Sts, th: seq<Stmt>, els: Option<Stmt>, c: Ctx, s: Out, p: IfOut, sF: Out) {
    && IfPlaced(Z, els.Some?, s, p) && s.n <= p.s1.n == p.h.n <= p.b.n <= p.e0.n <= p.eb.n <= sF.n
       && (els.Some? || p.eb == p.e0)
    && Pos(Z, sF) == Pos(Z, p.s3) + 1 && !sF.terminated && !p.h.terminated && !p.e0.terminated
    && p.b == t.block(th, c, p.h) && (els.Some? ==> p.eb == t.stmt(els.value, c, p.e0))
  }

  lemma IfSetup(Z: Site, t: Sts, e: Expr, th: seq<Stmt>, els: Option<Stmt>, c: Ctx, loop: Option<nat>, s: Out)
          returns (p: IfOut)
    requires Real(Z, t) && c.g == Z.g && t.okStmt(If(e, th, els), KOf(c, loop)) && Fits(Z, t.stmt(If(e, th, els), c, s))
    ensures t.okExpr(e, KOf(c, loop)) && Z.f.ty(e, c).Sc? && t.okBlock(th, KOf(c, loop))
    ensures els.Some? ==> After(els.value, c, p.e0) == c && t.okStmt(els.value, KOf(c, loop))
    ensures Cond(Z, e, c, IfLabels(s, els.Some?)) == (p.s1, p.x)
    ensures IfReady(Z, t, th, els, c, s, p, t.stmt(If(e, th, els), c, s))
  {
    p := IfParts(Z, t, e, th, els, c, s);
    IfEq(Z, t, e, th, els, c, s);
    IfOk(Z, t, e, th, els, c, loop, p.e0);
    IfLines(Z, els.Some?, s, p);
    IfShape(Z, els.Some?, s, p, t.stmt(If(e, th, els), c, s));
  }

  lemma IfCond(Z: Site, t: Sts, e: Expr, c: Ctx, l: Around, hasElse: bool, s: Out, env: Env, tr: seq<Event>, cfg: Cfg,
          p: IfOut) returns (q: Got)
    requires Real(Z, t) && In(Z, c, s, env, tr, cfg) && t.okExpr(e, KOf(c, l.loop)) && Z.f.ty(e, c).Sc?
    requires Cond(Z, e, c, IfLabels(s, hasElse)) == (p.s1, p.x) && Fits(Z, p.s1)
    ensures CondIn(Z, t, e, c, IfLabels(s, hasElse), env, tr, cfg, q)
  {
    assert In(Z, c, IfLabels(s, hasElse), env, tr, cfg);
    q := CondRun(Z, t, e, c, l.loop, IfLabels(s, hasElse), env, tr, cfg);
  }

  lemma SimIf(Z: Site, t: Sts, e: Expr, th: seq<Stmt>, els: Option<Stmt>, c: Ctx, l: Around, s: Out, env: Env,
          tr: seq<Event>, cfg: Cfg, fuel: nat) returns (v: Via)
    requires Real(Z, t) && In(Z, c, s, env, tr, cfg) && AroundOk(Z, c, l)
    requires t.okStmt(If(e, th, els), KOf(c, l.loop)) && Fits(Z, t.stmt(If(e, th, els), c, s))
    ensures FlowPost(Z, t, c.defers, c, l, c, s.n, t.stmt(If(e, th, els), c, s), cfg,
            t.exec(If(e, th, els), env, tr, fuel), fuel, v)
    decreases fuel, SSize(If(e, th, els)), 2
  {
    var p := IfSetup(Z, t, e, th, els, c, l.loop, s);
    IfExec(Z, t, e, th, els, env, tr, fuel);
    IfSize(e, th, els);
    v := IfRun(Z, t, e, th, els, c, l, s, p, t.stmt(If(e, th, els), c, s), env, tr, cfg,
        t.exec(If(e, th, els), env, tr, fuel), fuel);
  }

  lemma IfSize(e: Expr, th: seq<Stmt>, els: Option<Stmt>)
    ensures BSize(th) + (if els.Some? then SSize(els.value) else 0) + 2 < SSize(If(e, th, els))
  {}

  lemma IfRun(Z: Site, t: Sts, e: Expr, th: seq<Stmt>, els: Option<Stmt>, c: Ctx, l: Around, s: Out, p: IfOut, sF: Out,
          env: Env, tr: seq<Event>, cfg: Cfg, done: SO, fuel: nat) returns (v: Via)
    requires Real(Z, t) && In(Z, c, s, env, tr, cfg) && AroundOk(Z, c, l)
    requires t.okExpr(e, KOf(c, l.loop)) && Z.f.ty(e, c).Sc? && t.okBlock(th, KOf(c, l.loop))
    requires els.Some? ==> After(els.value, c, p.e0) == c && t.okStmt(els.value, KOf(c, l.loop))
    requires Cond(Z, e, c, IfLabels(s, els.Some?)) == (p.s1, p.x) && IfReady(Z, t, th, els, c, s, p, sF)
    requires done == IfDoes(Z, t, Z.f.eval(e, env, tr), th, els, env, fuel)
    ensures FlowPost(Z, t, c.defers, c, l, c, s.n, sF, cfg, done, fuel, v)
    decreases fuel, BSize(th) + (if els.Some? then SSize(els.value) else 0) + 2, 2
  {
    var q := IfCond(Z, t, e, c, l, els.Some?, s, env, tr, cfg, p);
    var out := Z.f.eval(e, env, tr);
    if out.EV? {
      v := IfGo(Z, t, th, els, c, l, s, p, sF, out.val.v != 0, env, out.tr, cfg, q, fuel);
    } else {
      v := StoppedFlow(Z, t, c, l, c, IfLabels(s, els.Some?).n, sF, cfg, out, env, fuel, q);
    }
  }

  lemma IfGo(Z: Site, t: Sts, th: seq<Stmt>, els: Option<Stmt>, c: Ctx, l: Around, s: Out, p: IfOut, sF: Out,
          yes: bool, env: Env, tr: seq<Event>, cfg: Cfg, q: Got, fuel: nat) returns (v: Via)
    requires Real(Z, t) && AroundOk(Z, c, l) && t.okBlock(th, KOf(c, l.loop)) && Ran(Z, s.n, cfg, q)
             && In(Z, c, p.s1, env, tr, q.cfg)
    requires els.Some? ==> After(els.value, c, p.e0) == c && t.okStmt(els.value, KOf(c, l.loop))
    requires IfReady(Z, t, th, els, c, s, p, sF)
    requires Read(Z.w, q.cfg, 1, p.x) == Some(if yes then 1 else 0)
    ensures var out := if yes then t.scope(th, env, tr, fuel) else if els.Some? then t.exec(els.value, env, tr, fuel)
            else Normal(env, tr);
            FlowPost(Z, t, c.defers, c, l, c, s.n, sF, cfg, out, fuel, v)
    decreases fuel, BSize(th) + (if els.Some? then SSize(els.value) else 0) + 2, 1
  {
    var to := if yes then Pos(Z, p.s1) + 1 else if els.Some? then Pos(Z, p.s2) else Pos(Z, p.s3);
    IfTake(Z, els.Some?, s, p, yes, to, cfg, q);
    v := IfBranch(Z, t, th, els, c, l, s, p, sF, yes, env, tr, cfg, On(q, q.cfg.(pc := to + 1)), fuel);
  }

  /** The test's branch. */
  lemma IfTake(Z: Site, hasElse: bool, s: Out, p: IfOut, yes: bool, to: nat, cfg: Cfg, q: Got)
    requires Sound(Z) && IfPlaced(Z, hasElse, s, p) && Ran(Z, s.n, cfg, q) && q.cfg.pc == Pos(Z, p.s1)
    requires Read(Z.w, q.cfg, 1, p.x) == Some(if yes then 1 else 0)
    requires to == if yes then Pos(Z, p.s1) + 1 else if hasElse then Pos(Z, p.s2) else Pos(Z, p.s3)
    ensures Ran(Z, s.n, cfg, On(q, q.cfg.(pc := to + 1)))
  {
    CondStep(Z, s.n, p.x, IfThen(s), IfElse(s, hasElse), if yes then 1 else 0, to, cfg, q);
  }

  lemma IfBranch(Z: Site, t: Sts, th: seq<Stmt>, els: Option<Stmt>, c: Ctx, l: Around, s: Out, p: IfOut, sF: Out,
          yes: bool, env: Env, tr: seq<Event>, cfg: Cfg, q: Got, fuel: nat) returns (v: Via)
    requires Real(Z, t) && AroundOk(Z, c, l) && t.okBlock(th, KOf(c, l.loop)) && Ran(Z, s.n, cfg, q) && q.cfg.tr == tr
             && c.g == Z.g
    requires els.Some? ==> After(els.value, c, p.e0) == c && t.okStmt(els.value, KOf(c, l.loop))
    requires IfReady(Z, t, th, els, c, s, p, sF)
    requires Rel(env, c.locals, q.cfg.mem) && LocalsOk(c.locals, p.h.n) && MemHas(Z.H, q.cfg.mem)
    requires q.cfg.pc == (if yes then Pos(Z, p.h) else if els.Some? then Pos(Z, p.e0) else Pos(Z, sF))
    ensures var out := if yes then t.scope(th, env, tr, fuel) else if els.Some? then t.exec(els.value, env, tr, fuel)
            else Normal(env, tr);
            FlowPost(Z, t, c.defers, c, l, c, s.n, sF, cfg, out, fuel, v)
    decreases fuel, BSize(th) + (if els.Some? then SSize(els.value) else 0) + 2, 0
  {
    if yes {
      v := ThenRun(Z, t, th, els, c, l, s, p, sF, env, tr, cfg, q, fuel);
    } else if els.Some? {
      LocalsMore(c.locals, p.h.n, p.e0.n);
      v := ElseRun(Z, t, els.value, c, l, s, p, sF, env, tr, cfg, q, fuel);
    } else {
      LocalsMore(c.locals, p.h.n, sF.n);
      v := Via(q.k, q.cfg, s, c, LOk(None));
    }
  }

  lemma ThenRun(Z: Site, t: Sts, th: seq<Stmt>, els: Option<Stmt>, c: Ctx, l: Around, s: Out, p: IfOut, sF: Out,
          env: Env, tr: seq<Event>, cfg: Cfg, q: Got, fuel: nat) returns (v: Via)
    requires Real(Z, t) && AroundOk(Z, c, l) && t.okBlock(th, KOf(c, l.loop)) && Ran(Z, s.n, cfg, q)
    requires IfReady(Z, t, th, els, c, s, p, sF) && In(Z, c, p.h, env, tr, q.cfg)
    ensures FlowPost(Z, t, c.defers, c, l, c, s.n, sF, cfg, t.scope(th, env, tr, fuel), fuel, v)
    decreases fuel, BSize(th) + 1, 7
  {
    var w := SimBlock(Z, t, th, c, l, p.h, env, tr, q.cfg, fuel);
    v := BranchEnd(Z, t, c, l, s.n, p.h.n, p.b, IfDone(s), Pos(Z, p.s3), sF, cfg, q, t.scope(th, env, tr, fuel), fuel,
        w);
  }

  lemma ElseRun(Z: Site, t: Sts, st: Stmt, c: Ctx, l: Around, s: Out, p: IfOut, sF: Out, env: Env, tr: seq<Event>,
          cfg: Cfg, q: Got, fuel: nat) returns (v: Via)
    requires Real(Z, t) && AroundOk(Z, c, l) && Ran(Z, s.n, cfg, q) && t.okStmt(st, KOf(c, l.loop))
             && After(st, c, p.e0) == c
    requires IfPlaced(Z, true, s, p) && s.n <= p.e0.n <= p.eb.n <= sF.n && p.eb == t.stmt(st, c, p.e0)
    requires Pos(Z, sF) == Pos(Z, p.s3) + 1 && !sF.terminated && In(Z, c, p.e0, env, tr, q.cfg)
    ensures FlowPost(Z, t, c.defers, c, l, c, s.n, sF, cfg, t.exec(st, env, tr, fuel), fuel, v)
    decreases fuel, SSize(st) + 1, 0
  {
    var w := SimStmt(Z, t, st, c, l, p.e0, env, tr, q.cfg, fuel);
    v := BranchEnd(Z, t, c, l, s.n, p.e0.n, p.eb, IfDone(s), Pos(Z, p.s3), sF, cfg, q, t.exec(st, env, tr, fuel), fuel,
        w);
  }

  // --- while ------------------------------------------------------------------------------------------------

  datatype WhOut = WhOut(h: Out, s1: Out, x: Opd, b0: Out, b: Out, s2: Out)

  function Inner(c: Ctx, s: Out): Ctx {
    c.(loops := c.loops + [Loop(WhHead(s), WhDone(s))])
  }

  function WhParts(Z: Site, t: Sts, e: Expr, body: seq<Stmt>, c: Ctx, s: Out): WhOut {
    var h := WhStart(s);
    var (s1, x) := Cond(Z, e, c, h);
    var b0 := WhTest(s, x, s1);
    var b := t.block(body, Inner(c, s), b0);
    WhOut(h, s1, x, b0, b, BrTo(b, WhHead(s)))
  }

  lemma WhEq(Z: Site, t: Sts, e: Expr, body: seq<Stmt>, c: Ctx, s: Out)
    requires Genuine(Z) && GenuineOut(t)
    ensures var p := WhParts(Z, t, e, body, c, s);
            && t.stmt(While(e, body), c, s) == Start(p.s2, WhDone(s)) && Ext(p.h, p.s1) && Ext(p.b0, p.b)
               && !p.s1.terminated
  {
    var st, p := While(e, body), WhParts(Z, t, e, body, c, s);
    CondIs(Z, e, c, p.h);
    CondFacts(Z, e, c, p.h);
    BlockExt(t, body, Inner(c, s), p.b0);
    assert t.block(body, Inner(c, s), p.b0) == CBlock(body, Inner(c, s), p.b0);
    assert t.stmt(st, c, s) == CStmt(st, c, s);
    assert CStmt(st, c, s) == CWhile(e, body, c, s);
  }

  lemma WhOk(Z: Site, t: Sts, e: Expr, body: seq<Stmt>, c: Ctx, s: Out, loop: Option<nat>)
    requires Real(Z, t) && c.g == Z.g && t.okStmt(While(e, body), KOf(c, loop))
    ensures t.okExpr(e, KOf(c, loop)) && Z.f.ty(e, c).Sc? && t.okBlock(body, KOf(Inner(c, s), Some(|c.defers|)))
  {
    var st, k := While(e, body), KOf(c, loop);
    var k1 := k.(loop := Some(|k.defers|));
    assert k1 == KOf(Inner(c, s), Some(|c.defers|));
    assert t.okStmt(st, k) == OkStmt(st, k) && t.okBlock(body, k1) == OkBlock(body, k1);
    CondOk(Z, t, e, c, loop);
  }

  lemma WhSpent(Z: Site, t: Sts, e: Expr, body: seq<Stmt>, env: Env, tr: seq<Event>)
    requires Genuine(Z) && GenuineRun(Z, t)
    ensures t.exec(While(e, body), env, tr, 0) == OutOfFuel(tr)
  {
    assert t.exec(While(e, body), env, tr, 0) == Exec(Z.w.o, Z.g, While(e, body), env, tr, 0);
  }

  lemma WhExec(Z: Site, t: Sts, e: Expr, body: seq<Stmt>, env: Env, tr: seq<Event>, rest: nat, fuel: nat)
    requires Genuine(Z) && GenuineRun(Z, t) && fuel == rest + 1
    ensures var r := Z.f.eval(e, env, tr); var x := t.exec(While(e, body), env, tr, fuel);
            if !r.EV? then x == Stopped(r, env)
            else if r.val.v == 0 then x == Normal(env, r.tr)
            else
              var out := t.scope(body, env, r.tr, rest);
              x == if out.Normal? || out.Continued? then t.exec(While(e, body), out.env, out.tr, rest)
                   else if out.Broke? then Normal(out.env, out.tr) else out
  {
    var st := While(e, body);
    var r := Eval(Z.w.o, Z.g, e, env, tr);
    assert t.exec(st, env, tr, fuel) == Exec(Z.w.o, Z.g, st, env, tr, fuel);
    assert Z.f.eval(e, env, tr) == r;
    if r.EV? {
      var out := ExecBlock(Z.w.o, Z.g, body, env, r.tr, rest);
      assert t.scope(body, env, r.tr, rest) == out;
      assert out.Normal? || out.Continued? ==>
          t.exec(st, out.env, out.tr, rest) == Exec(Z.w.o, Z.g, st, out.env, out.tr, rest);
    }
  }

  ghost predicate WhPlaced(Z: Site, s: Out, p: WhOut) {
    && Has(Z, Pos(Z, s), Br(WhHead(s))) && Has(Z, Pos(Z, s) + 1, Label(WhHead(s))) && Pos(Z, p.h) == Pos(Z, s) + 2
    && Fits(Z, p.s1) && Fits(Z, p.b0) && Fits(Z, p.b)
    && Has(Z, Pos(Z, p.s1), CondBr(p.x, WhBody(s), WhDone(s))) && Has(Z, Pos(Z, p.s1) + 1, Label(WhBody(s)))
    && Pos(Z, p.b0) == Pos(Z, p.s1) + 2
    && (!p.b.terminated ==> Has(Z, Pos(Z, p.b), Br(WhHead(s))))
    && Has(Z, Pos(Z, p.s2), Label(WhDone(s)))
  }

  lemma WhLines(Z: Site, s: Out, p: WhOut)
    requires !s.terminated && p.h == WhStart(s) && Ext(p.h, p.s1) && p.b0 == WhTest(s, p.x, p.s1) && Ext(p.b0, p.b)
    requires p.s2 == BrTo(p.b, WhHead(s)) && Fits(Z, Start(p.s2, WhDone(s)))
    ensures WhPlaced(Z, s, p)
  {
    StartLine(Z, p.s2, WhDone(s));
    BrToLine(Z, p.b, WhHead(s));
    FitsExt(Z, p.b0, p.b);
    ForkLines(Z, p.s1, p.x, WhBody(s), WhDone(s), p.b0);
    FitsExt(Z, p.h, p.s1);
    Place(Z, p.h, |s.body|); Place(Z, p.h, |s.body| + 1);
  }

  /** What running a `while` needs of its parts. */
  ghost predicate WhReady(Z: Site, t: Sts, e: Expr, body: seq<Stmt>, c: Ctx, s: Out, p: WhOut, sF: Out) {
    && WhPlaced(Z, s, p) && Cond(Z, e, c, p.h) == (p.s1, p.x) && p.b == t.block(body, Inner(c, s), p.b0)
    && s.n == p.h.n <= p.s1.n == p.b0.n <= p.b.n == sF.n
    && Pos(Z, sF) == Pos(Z, p.s2) + 1 && !sF.terminated && !p.h.terminated && !p.b0.terminated
  }

  lemma WhShape(Z: Site, s: Out, p: WhOut, sF: Out)
    requires p.h == WhStart(s) && Ext(p.h, p.s1) && p.b0 == WhTest(s, p.x, p.s1) && Ext(p.b0, p.b)
    requires p.s2 == BrTo(p.b, WhHead(s)) && sF == Start(p.s2, WhDone(s))
    ensures s.n == p.h.n <= p.s1.n == p.b0.n <= p.b.n == sF.n
    ensures Pos(Z, sF) == Pos(Z, p.s2) + 1 && !sF.terminated && !p.h.terminated && !p.b0.terminated
  {}

  lemma WhSetup(Z: Site, t: Sts, e: Expr, body: seq<Stmt>, c: Ctx, loop: Option<nat>, s: Out) returns (p: WhOut)
    requires Real(Z, t) && c.g == Z.g && !s.terminated && t.okStmt(While(e, body), KOf(c, loop))
             && Fits(Z, t.stmt(While(e, body), c, s))
    ensures t.okExpr(e, KOf(c, loop)) && Z.f.ty(e, c).Sc? && t.okBlock(body, KOf(Inner(c, s), Some(|c.defers|)))
    ensures WhReady(Z, t, e, body, c, s, p, t.stmt(While(e, body), c, s))
  {
    p := WhParts(Z, t, e, body, c, s);
    WhEq(Z, t, e, body, c, s);
    WhOk(Z, t, e, body, c, s, loop);
    WhLines(Z, s, p);
    WhShape(Z, s, p, t.stmt(While(e, body), c, s));
  }

  lemma SimWhile(Z: Site, t: Sts, e: Expr, body: seq<Stmt>, c: Ctx, l: Around, s: Out, env: Env, tr: seq<Event>,
          cfg: Cfg, fuel: nat) returns (v: Via)
    requires Real(Z, t) && In(Z, c, s, env, tr, cfg) && AroundOk(Z, c, l)
    requires t.okStmt(While(e, body), KOf(c, l.loop)) && Fits(Z, t.stmt(While(e, body), c, s))
    ensures FlowPost(Z, t, c.defers, c, l, c, s.n, t.stmt(While(e, body), c, s), cfg,
            t.exec(While(e, body), env, tr, fuel), fuel, v)
    decreases fuel, SSize(While(e, body)), 2
  {
    var p := WhSetup(Z, t, e, body, c, l.loop, s);
    var sF := t.stmt(While(e, body), c, s);
    WhEnter(Z, t, e, body, c, s, p, sF, env, tr, cfg);
    var c1 := cfg.(pc := Pos(Z, s) + 2);
    var w := SimLoop(Z, t, e, body, c, l, s, p, sF, env, tr, c1, fuel);
    FlowAfter(Z, t, c.defers, c, l, c, s.n, sF, cfg, 1, c1, s.n, t.exec(While(e, body), env, tr, fuel), fuel, w);
    v := w.(k := 1 + w.k);
  }

  lemma WhEnter(Z: Site, t: Sts, e: Expr, body: seq<Stmt>, c: Ctx, s: Out, p: WhOut, sF: Out, env: Env, tr: seq<Event>,
          cfg: Cfg)
    requires Sound(Z) && WhReady(Z, t, e, body, c, s, p, sF) && In(Z, c, s, env, tr, cfg)
    ensures Went(Z, s.n, cfg, 1, cfg.(pc := Pos(Z, s) + 2)) && In(Z, c, p.h, env, tr, cfg.(pc := Pos(Z, s) + 2))
  {
    BrStep(Z, s.n, WhHead(s), Pos(Z, s) + 1, cfg, Here(cfg, s));
    InLater(Z, c, s, p.h, env, tr, cfg, cfg.(pc := Pos(Z, s) + 2));
  }

  lemma SimLoop(Z: Site, t: Sts, e: Expr, body: seq<Stmt>, c: Ctx, l: Around, s: Out, p: WhOut, sF: Out, env: Env,
          tr: seq<Event>, cfg: Cfg, fuel: nat) returns (v: Via)
    requires Real(Z, t) && AroundOk(Z, c, l) && WhReady(Z, t, e, body, c, s, p, sF) && In(Z, c, p.h, env, tr, cfg)
    requires t.okExpr(e, KOf(c, l.loop)) && Z.f.ty(e, c).Sc? && t.okBlock(body, KOf(Inner(c, s), Some(|c.defers|)))
    ensures FlowPost(Z, t, c.defers, c, l, c, s.n, sF, cfg, t.exec(While(e, body), env, tr, fuel), fuel, v)
    decreases fuel, SSize(While(e, body)), 1
  {
    if fuel == 0 {
      v := Via(0, cfg, s, c, LOk(None));
      LoopSpent(Z, t, e, body, c, l, s, p.h, sF, env, tr, cfg, v);
    } else {
      v := LoopFrom(Z, t, e, body, c, l, s, p, sF, env, tr, cfg, fuel - 1, fuel);
    }
  }

  lemma LoopSpent(Z: Site, t: Sts, e: Expr, body: seq<Stmt>, c: Ctx, l: Around, s: Out, h: Out, sF: Out, env: Env,
          tr: seq<Event>, cfg: Cfg, v: Via)
    requires Genuine(Z) && GenuineRun(Z, t) && In(Z, c, h, env, tr, cfg) && v.k == 0
    ensures FlowPost(Z, t, c.defers, c, l, c, s.n, sF, cfg, t.exec(While(e, body), env, tr, 0), 0, v)
  {
    WhSpent(Z, t, e, body, env, tr);
    assert Steps(Z.f.step, cfg, 0) == Run(cfg);
  }

  /** The test, and then a trip or the end. */
  lemma LoopFrom(Z: Site, t: Sts, e: Expr, body: seq<Stmt>, c: Ctx, l: Around, s: Out, p: WhOut, sF: Out, env: Env,
          tr: seq<Event>, cfg: Cfg, rest: nat, fuel: nat) returns (v: Via)
    requires fuel == rest + 1
    requires Real(Z, t) && AroundOk(Z, c, l) && WhReady(Z, t, e, body, c, s, p, sF) && In(Z, c, p.h, env, tr, cfg)
    requires t.okExpr(e, KOf(c, l.loop)) && Z.f.ty(e, c).Sc? && t.okBlock(body, KOf(Inner(c, s), Some(|c.defers|)))
    ensures FlowPost(Z, t, c.defers, c, l, c, s.n, sF, cfg, t.exec(While(e, body), env, tr, fuel), fuel, v)
    decreases rest, SSize(While(e, body)), 5
  {
    WhExec(Z, t, e, body, env, tr, rest, fuel);
    var q := CondRun(Z, t, e, c, l.loop, p.h, env, tr, cfg);
    var out := Z.f.eval(e, env, tr);
    if !out.EV? {
      v := StoppedFlow(Z, t, c, l, c, s.n, sF, cfg, out, env, fuel, q);
    } else if out.val.v != 0 {
      var q1 := WhYes(Z, t, e, body, c, s, p, sF, env, out.tr, cfg, q);
      v := LoopBody(Z, t, e, body, c, l, s, p, sF, env, out.tr, cfg, q1, rest, fuel);
    } else {
      v := WhNo(Z, t, e, body, c, s, p, sF, env, out.tr, cfg, q);
    }
  }

  /** The condition held: to the body. */
  lemma WhYes(Z: Site, t: Sts, e: Expr, body: seq<Stmt>, c: Ctx, s: Out, p: WhOut, sF: Out, env: Env, tr: seq<Event>,
          cfg: Cfg, q: Got) returns (q1: Got)
    requires Sound(Z) && WhReady(Z, t, e, body, c, s, p, sF) && Ran(Z, s.n, cfg, q) && In(Z, c, p.s1, env, tr, q.cfg)
    requires Read(Z.w, q.cfg, 1, p.x) == Some(1)
    ensures Ran(Z, s.n, cfg, q1) && q1.k >= 1 && In(Z, Inner(c, s), p.b0, env, tr, q1.cfg)
  {
    CondStep(Z, s.n, p.x, WhBody(s), WhDone(s), 1, Pos(Z, p.s1) + 1, cfg, q);
    q1 := On(q, q.cfg.(pc := Pos(Z, p.s1) + 2));
  }

  /** It did not: past the end. */
  lemma WhNo(Z: Site, t: Sts, e: Expr, body: seq<Stmt>, c: Ctx, s: Out, p: WhOut, sF: Out, env: Env, tr: seq<Event>,
          cfg: Cfg, q: Got) returns (v: Via)
    requires Sound(Z) && WhReady(Z, t, e, body, c, s, p, sF) && Ran(Z, s.n, cfg, q) && In(Z, c, p.s1, env, tr, q.cfg)
    requires Read(Z.w, q.cfg, 1, p.x) == Some(0)
    ensures Went(Z, s.n, cfg, v.k, v.cfg) && In(Z, c, sF, env, tr, v.cfg)
  {
    var q1 := On(q, q.cfg.(pc := Pos(Z, p.s2) + 1));
    CondStep(Z, s.n, p.x, WhBody(s), WhDone(s), 0, Pos(Z, p.s2), cfg, q);
    InLater(Z, c, p.s1, sF, env, tr, q.cfg, q1.cfg);
    RanWent(Z, s.n, cfg, q1);
    v := Via(q1.k, q1.cfg, s, c, LOk(None));
  }

  lemma RanWent(Z: Site, n: nat, cfg: Cfg, q: Got)
    requires Ran(Z, n, cfg, q)
    ensures Went(Z, n, cfg, q.k, q.cfg)
  {}

  /** The same scope and state further on in the text. */
  lemma InLater(Z: Site, c: Ctx, s: Out, s1: Out, env: Env, tr: seq<Event>, cfg: Cfg, cfg1: Cfg)
    requires In(Z, c, s, env, tr, cfg) && s.n <= s1.n && !s1.terminated && cfg1 == cfg.(pc := Pos(Z, s1))
    ensures In(Z, c, s1, env, tr, cfg1)
  {
    LocalsMore(c.locals, s.n, s1.n);
  }

  lemma InnerAround(Z: Site, c: Ctx, s: Out, p: WhOut)
    requires WhPlaced(Z, s, p)
    ensures AroundOk(Z, Inner(c, s), Around(Some(|c.defers|), Pos(Z, s) + 1, Pos(Z, p.s2)))
  {}

  /** One trip: the body, and the loop again with less fuel unless it was left. */
  lemma LoopBody(Z: Site, t: Sts, e: Expr, body: seq<Stmt>, c: Ctx, l: Around, s: Out, p: WhOut, sF: Out, env: Env,
          tr: seq<Event>, cfg: Cfg, q: Got, rest: nat, fuel: nat) returns (v: Via)
    requires fuel == rest + 1
    requires Real(Z, t) && AroundOk(Z, c, l) && WhReady(Z, t, e, body, c, s, p, sF)
    requires t.okExpr(e, KOf(c, l.loop)) && Z.f.ty(e, c).Sc? && t.okBlock(body, KOf(Inner(c, s), Some(|c.defers|)))
    requires Ran(Z, s.n, cfg, q) && q.k >= 1 && In(Z, Inner(c, s), p.b0, env, tr, q.cfg) && LocalsOk(c.locals, s.n)
    ensures var out := t.scope(body, env, tr, rest);
            var all := if out.Normal? || out.Continued? then t.exec(While(e, body), out.env, out.tr, rest)
                       else if out.Broke? then Normal(out.env, out.tr) else out;
            FlowPost(Z, t, c.defers, c, l, c, s.n, sF, cfg, all, fuel, v)
    decreases rest, SSize(While(e, body)), 4
  {
    BodySize(e, body);
    InnerAround(Z, c, s, p);
    var w := LoopTrip(Z, t, e, body, c, l, Inner(c, s), Around(Some(|c.defers|), Pos(Z, s) + 1, Pos(Z, p.s2)), s, p, sF,
        env, tr, cfg, q, rest, fuel);
    v := LoopNext(Z, t, e, body, c, l, s, p, sF, cfg, t.scope(body, env, tr, rest), rest, fuel, w);
  }

  /** The rest of the loop after a trip with outcome `out`. */
  lemma LoopNext(Z: Site, t: Sts, e: Expr, body: seq<Stmt>, c: Ctx, l: Around, s: Out, p: WhOut, sF: Out, cfg: Cfg,
          out: SO, rest: nat, fuel: nat, w: Via) returns (v: Via)
    requires fuel == rest + 1
    requires Real(Z, t) && AroundOk(Z, c, l) && WhReady(Z, t, e, body, c, s, p, sF)
    requires t.okExpr(e, KOf(c, l.loop)) && Z.f.ty(e, c).Sc? && t.okBlock(body, KOf(Inner(c, s), Some(|c.defers|)))
    requires TripPost(Z, t, c, l, s.n, p.h, sF, cfg, out, fuel, w)
    ensures var all := if out.Normal? || out.Continued? then t.exec(While(e, body), out.env, out.tr, rest)
                       else if out.Broke? then Normal(out.env, out.tr) else out;
            FlowPost(Z, t, c.defers, c, l, c, s.n, sF, cfg, all, fuel, v)
    decreases rest, SSize(While(e, body)), 3
  {
    v := w;
    if out.Normal? || out.Continued? {
      v := LoopAgain(Z, t, e, body, c, l, s, p, sF, cfg, out.env, out.tr, rest, fuel, w);
    }
  }

  lemma LoopAgain(Z: Site, t: Sts, e: Expr, body: seq<Stmt>, c: Ctx, l: Around, s: Out, p: WhOut, sF: Out, cfg: Cfg,
          env: Env, tr: seq<Event>, rest: nat, fuel: nat, w: Via) returns (v: Via)
    requires fuel == rest + 1
    requires Real(Z, t) && AroundOk(Z, c, l) && WhReady(Z, t, e, body, c, s, p, sF)
    requires t.okExpr(e, KOf(c, l.loop)) && Z.f.ty(e, c).Sc? && t.okBlock(body, KOf(Inner(c, s), Some(|c.defers|)))
    requires Went(Z, s.n, cfg, w.k, w.cfg) && w.k >= 1 && In(Z, c, p.h, env, tr, w.cfg)
    ensures FlowPost(Z, t, c.defers, c, l, c, s.n, sF, cfg, t.exec(While(e, body), env, tr, rest), fuel, v)
    decreases rest, SSize(While(e, body)), 2
  {
    var out := t.exec(While(e, body), env, tr, rest);
    var w1 := SimLoop(Z, t, e, body, c, l, s, p, sF, env, tr, w.cfg, rest);
    v := Again(Z, t, c, l, s.n, sF, cfg, w, out, fuel, w1);
  }

  lemma BodySize(e: Expr, body: seq<Stmt>)
    ensures BSize(body) + 1 < SSize(While(e, body))
  {}

  /** Where a trip with outcome `out` has led: back to the head `h`, or to the outcome of the loop. */
  ghost predicate TripPost(Z: Site, t: Sts, c: Ctx, l: Around, n: nat, h: Out, sF: Out, cfg: Cfg, out: SO, fuel: nat,
          v: Via) {
    if out.Normal? || out.Continued? then Went(Z, n, cfg, v.k, v.cfg) && v.k >= 1 && In(Z, c, h, out.env, out.tr, v.cfg)
    else FlowPost(Z, t, c.defers, c, l, c, n, sF, cfg, if out.Broke? then Normal(out.env, out.tr) else out, fuel, v)
  }

  /** One trip through the body. */
  lemma LoopTrip(Z: Site, t: Sts, e: Expr, body: seq<Stmt>, c: Ctx, l: Around, ci: Ctx, li: Around, s: Out, p: WhOut,
          sF: Out, env: Env, tr: seq<Event>, cfg: Cfg, q: Got, rest: nat, fuel: nat) returns (v: Via)
    requires fuel == rest + 1
    requires Real(Z, t) && AroundOk(Z, ci, li) && WhReady(Z, t, e, body, c, s, p, sF)
    requires ci == Inner(c, s) && li == Around(Some(|c.defers|), Pos(Z, s) + 1, Pos(Z, p.s2))
    requires t.okBlock(body, KOf(ci, li.loop)) && Fits(Z, t.block(body, ci, p.b0)) && p.b == t.block(body, ci, p.b0)
    requires Ran(Z, s.n, cfg, q) && q.k >= 1 && In(Z, ci, p.b0, env, tr, q.cfg) && LocalsOk(c.locals, s.n)
    ensures TripPost(Z, t, c, l, s.n, p.h, sF, cfg, t.scope(body, env, tr, rest), fuel, v)
    decreases rest, BSize(body) + 1, 7
  {
    var w := SimBlock(Z, t, body, ci, li, p.b0, env, tr, q.cfg, rest);
    v := TripEnd(Z, t, e, body, c, l, ci, li, s, p, t.block(body, ci, p.b0), sF, env, tr, cfg, q,
        t.scope(body, env, tr, rest), rest, fuel, w);
  }

  lemma Again(Z: Site, t: Sts, c: Ctx, l: Around, n: nat, sF: Out, cfg: Cfg, w: Via, all: SO, fuel: nat, w1: Via)
          returns (v: Via)
    requires fuel > 0 && w.k >= 1 && Went(Z, n, cfg, w.k, w.cfg)
    requires FlowPost(Z, t, c.defers, c, l, c, n, sF, w.cfg, all, fuel - 1, w1)
    ensures FlowPost(Z, t, c.defers, c, l, c, n, sF, cfg, all, fuel, v)
  {
    FlowAfter(Z, t, c.defers, c, l, c, n, sF, cfg, w.k, w.cfg, n, all, fuel - 1, w1);
    v := w1.(k := w.k + w1.k);
  }

  /** Where a trip's outcome leads: back to the head, past the end, or away. */
  lemma TripEnd(Z: Site, t: Sts, e: Expr, body: seq<Stmt>, c: Ctx, l: Around, ci: Ctx, li: Around, s: Out, p: WhOut,
          b: Out, sF: Out, env: Env, tr: seq<Event>, cfg: Cfg, q: Got, out: SO, rest: nat, fuel: nat, w: Via)
          returns (v: Via)
    requires fuel == rest + 1
    requires Sound(Z) && WhReady(Z, t, e, body, c, s, p, sF) && LocalsOk(c.locals, s.n)
    requires Ran(Z, s.n, cfg, q) && q.k >= 1 && In(Z, ci, p.b0, env, tr, q.cfg)
    requires ci == Inner(c, s) && li == Around(Some(|c.defers|), Pos(Z, s) + 1, Pos(Z, p.s2)) && b == p.b
    requires FlowPost(Z, t, ci.defers, ci, li, ci, p.b0.n, b, q.cfg, out, rest, w)
    requires Unjumped(out) || w.c.locals == ci.locals
    ensures TripPost(Z, t, c, l, s.n, p.h, sF, cfg, out, fuel, v)
  {
    FlowAfter(Z, t, c.defers, ci, li, ci, s.n, p.b, cfg, q.k, q.cfg, p.b0.n, out, rest, w);
    v := w.(k := q.k + w.k);
    if out.Normal? {
      v := ToHead(Z, s, p, cfg, v);
    } else if out.Continued? || out.Broke? {
      MemHasKept(Z.H, q.cfg.mem, v.cfg.mem);
      LocalsMore(c.locals, s.n, p.b.n);
    }
  }

  lemma ToHead(Z: Site, s: Out, p: WhOut, cfg: Cfg, w: Via) returns (v: Via)
    requires Sound(Z) && WhPlaced(Z, s, p) && Went(Z, s.n, cfg, w.k, w.cfg) && !p.b.terminated && At(Z, p.b, w.cfg)
    ensures Went(Z, s.n, cfg, v.k, v.cfg) && v.k >= w.k && v.cfg == w.cfg.(pc := Pos(Z, p.h))
  {
    BrOnce(Z, WhHead(s), Pos(Z, s) + 1, w.cfg);
    Snoc(Z.f.step, cfg, w.k, w.cfg);
    v := w.(k := w.k + 1, cfg := w.cfg.(pc := Pos(Z, s) + 2));
  }

  lemma BrOnce(Z: Site, l: Lbl, p: nat, cfg: Cfg)
    requires Sound(Z) && Has(Z, cfg.pc, Br(l)) && Has(Z, p, Label(l))
    ensures Z.f.step(cfg) == Run(cfg.(pc := p + 1))
  {
    Found(Z, p, l);
    assert Z.f.step(cfg) == Step(Z.w, cfg);
  }

  // --- pick ---------------------------------------------------------------------------------------------------

  lemma {:induction false} ArmsOk(t: Sts, arms: seq<Arm>, k: Chk, i: nat)
    requires GenuineOk(t) && OkArms(arms, k) && i < |arms|
    ensures t.okBlock(ArmAt(arms, i), k)
  {
    if i == 0 {
      assert t.okBlock(arms[0].body, k) == OkBlock(arms[0].body, k);
    } else {
      ArmsOk(t, arms[1..], k, i - 1);
    }
  }

  /** The switch goes to the chosen literal arm's label, or to the default. */
  lemma {:induction false} CaseIs(arms: seq<Arm>, first: nat, ty: Ty, v: int, dflt: Lbl)
    ensures var i := LiteralArm(arms, ty, v);
            CaseOf(Bits(ty), Enc(Bits(ty), v), CasesOf(arms, first), dflt) == if i.Some? then ArmLabel(first, i.value)
                else dflt
  {
    if arms != [] {
      CaseIs(arms[1..], first + 1, ty, v, dflt);
      var cs := CasesOf(arms, first);
      if arms[0].pat.Some? {
        assert cs[1..] == CasesOf(arms[1..], first + 1);
      } else {
        assert cs == CasesOf(arms[1..], first + 1);
      }
    }
  }

  lemma {:induction false} LiteralIs(arms: seq<Arm>, ty: Ty, v: int)
    ensures var i := LiteralArm(arms, ty, v); i.Some? ==> arms[i.value].pat.Some?
  {
    if arms != [] && !(arms[0].pat.Some? && Enc(Bits(ty), arms[0].pat.value) == Enc(Bits(ty), v)) {
      LiteralIs(arms[1..], ty, v);
    }
  }

  /** The output at which a literal arm starts. */
  lemma ArmPlace(arms: seq<Arm>, j: nat, i: nat, first: nat, done: Lbl, c: Ctx, s: Out) returns (sa: Out)
    requires j <= i < |arms| && arms[i].pat.Some?
    ensures Ext(s, sa) && Ext(CArm(ArmAt(arms, i), ArmLabel(first, i), done, c, sa), CArms(arms, j, first, done, c, s))
    decreases i - j
  {
    if j == i {
      sa := s;
    } else if arms[j].pat.None? {
      sa := ArmPlace(arms, j + 1, i, first, done, c, s);
    } else {
      var s1 := CArm(ArmAt(arms, j), ArmLabel(first, j), done, c, s);
      sa := ArmPlace(arms, j + 1, i, first, done, c, s1);
      ExtTrans(s, s1, sa);
    }
  }

  lemma ExtTrans(a: Out, b: Out, c: Out)
    requires Ext(a, b) && Ext(b, c)
    ensures Ext(a, c)
  {}

  lemma PickEq(Z: Site, t: Sts, e: Expr, arms: seq<Arm>, c: Ctx, s: Out) returns (s2: Out, s3: Out)
    requires Genuine(Z)  && GenuineOut(t)
    ensures var (s1, x) := Z.f.emit(e, c, s); var w := WildArm(arms); var first := s1.lbl + 2;
            && s2 == CArms(arms, 0, first, PickDone(s1), c, PickSwitch(Bits(Z.f.ty(e, c).ty), x, arms, s1))
            && s3 == (if w.Some? then CArm(ArmAt(arms, w.value), ArmLabel(first, w.value), PickDone(s1), c, s2) else s2)
            && t.stmt(Pick(e, arms), c, s) == Start(s3, PickDone(s1))
  {
    var (s1, x) := CExpr(e, c, s);
    assert Z.f.emit(e, c, s) == CExpr(e, c, s) && Z.f.ty(e, c) == XTyOf(e, c);
    var w, first := WildArm(arms), s1.lbl + 2;
    s2 := CArms(arms, 0, first, PickDone(s1), c, PickSwitch(Bits(XTyOf(e, c).ty), x, arms, s1));
    s3 := if w.Some? then CArm(ArmAt(arms, w.value), ArmLabel(first, w.value), PickDone(s1), c, s2) else s2;
    assert t.stmt(Pick(e, arms), c, s) == CStmt(Pick(e, arms), c, s);
    assert CStmt(Pick(e, arms), c, s) == CPick(e, arms, c, s);
  }

  lemma PickOk(Z: Site, t: Sts, e: Expr, arms: seq<Arm>, c: Ctx, loop: Option<nat>)
    requires Real(Z, t) && c.g == Z.g && t.okStmt(Pick(e, arms), KOf(c, loop))
    ensures t.okExpr(e, KOf(c, loop)) && Z.f.ty(e, c).Sc? && OkArms(arms, KOf(c, loop))
  {
    assert t.okStmt(Pick(e, arms), KOf(c, loop)) == OkStmt(Pick(e, arms), KOf(c, loop));
    CondOk(Z, t, e, c, loop);
  }

  /** What a `pick` does once its selector has been evaluated. */
  ghost function PickDoes(t: Sts, r: EO, arms: seq<Arm>, env: Env, fuel: nat): SO {
    if !r.EV? then Stopped(r, env)
    else
      var i := ChosenArm(arms, r.val.ty, r.val.v);
      if i.Some? then t.scope(ArmAt(arms, i.value), env, r.tr, fuel) else Normal(env, r.tr)
  }

  lemma PickExec(Z: Site, t: Sts, e: Expr, arms: seq<Arm>, env: Env, tr: seq<Event>, fuel: nat)
    requires Genuine(Z) && GenuineRun(Z, t)
    ensures var r := Z.f.eval(e, env, tr);
            t.exec(Pick(e, arms), env, tr, fuel) == PickDoes(t, r, arms, env, fuel)
  {
    var st := Pick(e, arms);
    var r := Eval(Z.w.o, Z.g, e, env, tr);
    assert t.exec(st, env, tr, fuel) == Exec(Z.w.o, Z.g, st, env, tr, fuel);
    assert Z.f.eval(e, env, tr) == r;
    if r.EV? {
      var i := ChosenArm(arms, r.val.ty, r.val.v);
      assert i.Some? ==> t.scope(ArmAt(arms, i.value), env, r.tr, fuel) == ExecBlock(Z.w.o, Z.g, ArmAt(arms, i.value),
          env, r.tr, fuel);
    }
  }

  /** An arm in place: its label, its block, and the jump that ends it. */
  ghost predicate ArmPlaced(Z: Site, t: Sts, body: seq<Stmt>, lbl: Lbl, done: Lbl, c: Ctx, sa: Out) {
    var b := t.block(body, c, Start(sa, lbl));
    Has(Z, Pos(Z, sa), Label(lbl)) && Fits(Z, b) && (!b.terminated ==> Has(Z, Pos(Z, b), Br(done)))
  }

  lemma ArmLines(Z: Site, t: Sts, body: seq<Stmt>, lbl: Lbl, done: Lbl, c: Ctx, sa: Out)
    requires GenuineOut(t) && Fits(Z, CArm(body, lbl, done, c, sa))
    ensures ArmPlaced(Z, t, body, lbl, done, c, sa)
            && CArm(body, lbl, done, c, sa).n >= t.block(body, c, Start(sa, lbl)).n
  {
    var s0 := Start(sa, lbl);
    var b := CBlock(body, c, s0);
    assert t.block(body, c, s0) == b;
    BrToLine(Z, b, done);
    FitsExt(Z, s0, b);
    StartLine(Z, sa, lbl);
  }

  /** Where the switch sends the chosen arm: its output and label, all in place. */
  lemma PickPlace(Z: Site, t: Sts, arms: seq<Arm>, ty: Ty, v: int, first: nat, done: Lbl, c: Ctx, s1: Out, s2: Out,
          s3: Out) returns (sa: Out)
    requires GenuineOut(t) && Fits(Z, s3) && s2 == CArms(arms, 0, first, done, c, s1)
    requires var w := WildArm(arms);
             s3 == if w.Some? then CArm(ArmAt(arms, w.value), ArmLabel(first, w.value), done, c, s2) else s2
    ensures Ext(s1, s3)
    ensures var i := ChosenArm(arms, ty, v);
            i.Some? ==>
              var body := ArmAt(arms, i.value);
              && Ext(s1, sa) && ArmPlaced(Z, t, body, ArmLabel(first, i.value), done, c, sa)
              && t.block(body, c, Start(sa, ArmLabel(first, i.value))).n <= s3.n
  {
    var i, w := ChosenArm(arms, ty, v), WildArm(arms);
    sa := s2;
    if w.Some? {
      ExtTrans(s1, s2, s3);
      FitsExt(Z, s2, s3);
    }
    if LiteralArm(arms, ty, v).Some? {
      LiteralIs(arms, ty, v);
      sa := ArmPlace(arms, 0, i.value, first, done, c, s1);
      var a := CArm(ArmAt(arms, i.value), ArmLabel(first, i.value), done, c, sa);
      FitsExt(Z, a, s2);
      ArmLines(Z, t, ArmAt(arms, i.value), ArmLabel(first, i.value), done, c, sa);
    } else if w.Some? {
      ArmLines(Z, t, ArmAt(arms, i.value), ArmLabel(first, i.value), done, c, sa);
    }
  }

  lemma SwitchStep(Z: Site, n: nat, w: nat, x: Opd, dflt: Lbl, cases: seq<(int, Lbl)>, v: nat, p: nat, cfg: Cfg, q: Got)
    requires Sound(Z) && Ran(Z, n, cfg, q) && Has(Z, q.cfg.pc, Switch(w, x, dflt, cases))
             && Read(Z.w, q.cfg, w, x) == Some(v)
    requires Has(Z, p, Label(CaseOf(w, v, cases, dflt)))
    ensures Ran(Z, n, cfg, On(q, q.cfg.(pc := p + 1)))
  {
    Found(Z, p, CaseOf(w, v, cases, dflt));
    Adv(Z, n, Switch(w, x, dflt, cases), cfg, q, q.cfg.(pc := p + 1));
  }

  lemma SimPick(Z: Site, t: Sts, e: Expr, arms: seq<Arm>, c: Ctx, l: Around, s: Out, env: Env, tr: seq<Event>,
          cfg: Cfg, fuel: nat) returns (v: Via)
    requires Real(Z, t) && In(Z, c, s, env, tr, cfg) && AroundOk(Z, c, l)
    requires t.okStmt(Pick(e, arms), KOf(c, l.loop)) && Fits(Z, t.stmt(Pick(e, arms), c, s))
    ensures FlowPost(Z, t, c.defers, c, l, c, s.n, t.stmt(Pick(e, arms), c, s), cfg,
            t.exec(Pick(e, arms), env, tr, fuel), fuel, v)
    decreases fuel, SSize(Pick(e, arms)), 2
  {
    var out := Z.f.eval(e, env, tr);
    PickOk(Z, t, e, arms, c, l.loop);
    PickExec(Z, t, e, arms, env, tr, fuel);
    PickSize(e, arms);
    var sa, end := PickSetup(Z, t, e, arms, if out.EV? then out.val.v else 0, c, s, t.stmt(Pick(e, arms), c, s));
    v := PickRun(Z, t, e, arms, c, l, s, sa, end, t.stmt(Pick(e, arms), c, s), env, tr, cfg,
        t.exec(Pick(e, arms), env, tr, fuel), fuel);
  }

  lemma PickSetup(Z: Site, t: Sts, e: Expr, arms: seq<Arm>, v: int, c: Ctx, s: Out, sF: Out) returns (sa: Out, end: nat)
    requires Genuine(Z) && GenuineOut(t) && sF == t.stmt(Pick(e, arms), c, s) && Fits(Z, sF)
    ensures var (s1, x) := Z.f.emit(e, c, s);
            Fits(Z, s1) && PickAt(Z, t, arms, Z.f.ty(e, c).ty, x, v, c, s1, sa, sF, end)
  {
    var s2, s3 := PickEq(Z, t, e, arms, c, s);
    var (s1, x) := Z.f.emit(e, c, s);
    sa := PickSpot(Z, t, arms, Z.f.ty(e, c).ty, x, v, c, s1, s2, s3, sF);
    end := Pos(Z, s3);
  }

  lemma PickSize(e: Expr, arms: seq<Arm>)
    ensures ASize(arms) < SSize(Pick(e, arms))
  {}

  lemma PickRun(Z: Site, t: Sts, e: Expr, arms: seq<Arm>, c: Ctx, l: Around, s: Out, sa: Out, end: nat, sF: Out,
          env: Env, tr: seq<Event>, cfg: Cfg, done: SO, fuel: nat) returns (v: Via)
    requires Real(Z, t) && In(Z, c, s, env, tr, cfg) && AroundOk(Z, c, l)
    requires t.okExpr(e, KOf(c, l.loop)) && Z.f.ty(e, c).Sc? && OkArms(arms, KOf(c, l.loop))
    requires var (s1, x) := Z.f.emit(e, c, s); var out := Z.f.eval(e, env, tr);
             Fits(Z, s1) && PickAt(Z, t, arms, Z.f.ty(e, c).ty, x, if out.EV? then out.val.v else 0, c, s1, sa, sF, end)
    requires done == PickDoes(t, Z.f.eval(e, env, tr), arms, env, fuel)
    ensures FlowPost(Z, t, c.defers, c, l, c, s.n, sF, cfg, done, fuel, v)
    decreases fuel, ASize(arms), 10
  {
    var (s1, x) := Z.f.emit(e, c, s);
    EmitFacts(Z, e, c, s);
    var q := EvalIn(Z, t, e, c, l.loop, s, env, tr, cfg);
    v := PickEnd(Z, t, arms, c, l, s.n, s1, x, Z.f.ty(e, c).ty, Z.f.eval(e, env, tr), sa, sF, end, env, cfg, q, fuel);
  }

  lemma PickEnd(Z: Site, t: Sts, arms: seq<Arm>, c: Ctx, l: Around, n: nat, s1: Out, x: Opd, ty: Ty, out: EO, sa: Out,
          sF: Out, end: nat, env: Env, cfg: Cfg, q: Got, fuel: nat) returns (v: Via)
    requires Real(Z, t) && AroundOk(Z, c, l) && OkArms(arms, KOf(c, l.loop)) && n <= s1.n
    requires if out.EV? then Ran(Z, n, cfg, q) && In(Z, c, s1, env, out.tr, q.cfg) && Holds(Z.w, q.cfg, x, out.val)
             && TyIs(out.val, Sc(ty))
             else StopAt(Z, t, c, n, cfg, out, env, q)
    requires PickAt(Z, t, arms, ty, x, if out.EV? then out.val.v else 0, c, s1, sa, sF, end)
    ensures FlowPost(Z, t, c.defers, c, l, c, n, sF, cfg, PickDoes(t, out, arms, env, fuel), fuel, v)
    decreases fuel, ASize(arms), 9
  {
    if out.EV? {
      v := PickGo(Z, t, arms, c, l, n, s1, x, out.val, sa, sF, end, env, cfg, q, fuel);
    } else {
      v := StoppedFlow(Z, t, c, l, c, n, sF, cfg, out, env, fuel, q);
    }
  }

  /** Where a `pick` finds its arm, and its end. */
  lemma PickSpot(Z: Site, t: Sts, arms: seq<Arm>, ty: Ty, x: Opd, v: int, c: Ctx, s1: Out, s2: Out, s3: Out, sF: Out)
          returns (sa: Out)
    requires GenuineOut(t) && Fits(Z, sF)
    requires var w := WildArm(arms); var first := s1.lbl + 2;
             && s2 == CArms(arms, 0, first, PickDone(s1), c, PickSwitch(Bits(ty), x, arms, s1))
             && s3 == (if w.Some? then CArm(ArmAt(arms, w.value), ArmLabel(first, w.value), PickDone(s1), c, s2)
                else s2)
             && sF == Start(s3, PickDone(s1))
    ensures Fits(Z, s1) && PickAt(Z, t, arms, ty, x, v, c, s1, sa, sF, Pos(Z, s3))
  {
    var sw := PickSwitch(Bits(ty), x, arms, s1);
    StartLine(Z, s3, PickDone(s1));
    sa := PickPlace(Z, t, arms, ty, v, s1.lbl + 2, PickDone(s1), c, sw, s2, s3);
    FitsExt(Z, sw, s3);
    FitsExt(Z, s1, sw);
  }

  ghost predicate PickAt(Z: Site, t: Sts, arms: seq<Arm>, ty: Ty, x: Opd, v: int, c: Ctx, s1: Out, sa: Out, sF: Out,
          end: nat) {
    && Fits(Z, PickSwitch(Bits(ty), x, arms, s1))
    && Has(Z, end, Label(PickDone(s1))) && Pos(Z, sF) == end + 1 && !sF.terminated && s1.n <= sF.n
    && var i := ChosenArm(arms, ty, v);
       i.Some? ==>
         var lbl := ArmLabel(s1.lbl + 2, i.value);
         && s1.n <= sa.n && ArmPlaced(Z, t, ArmAt(arms, i.value), lbl, PickDone(s1), c, sa)
         && t.block(ArmAt(arms, i.value), c, Start(sa, lbl)).n <= sF.n
  }

  lemma PickGo(Z: Site, t: Sts, arms: seq<Arm>, c: Ctx, l: Around, n: nat, s1: Out, x: Opd, a: Val, sa: Out, sF: Out,
          end: nat, env: Env, cfg: Cfg, q: Got, fuel: nat) returns (v: Via)
    requires Real(Z, t) && AroundOk(Z, c, l) && OkArms(arms, KOf(c, l.loop)) && a.S? && n <= s1.n
    requires Ran(Z, n, cfg, q) && In(Z, c, s1, env, q.cfg.tr, q.cfg) && Holds(Z.w, q.cfg, x, a)
    requires PickAt(Z, t, arms, a.ty, x, a.v, c, s1, sa, sF, end)
    ensures var i := ChosenArm(arms, a.ty, a.v);
            var out := if i.Some? then t.scope(ArmAt(arms, i.value), env, q.cfg.tr, fuel) else Normal(env, q.cfg.tr);
            FlowPost(Z, t, c.defers, c, l, c, n, sF, cfg, out, fuel, v)
    decreases fuel, ASize(arms), 8
  {
    var first, i := s1.lbl + 2, ChosenArm(arms, a.ty, a.v);
    var p := if i.Some? then Pos(Z, sa) else end;
    PickTo(Z, arms, a.ty, Bits(a.ty), x, a.v, n, s1, p, cfg, q);
    var q1 := On(q, q.cfg.(pc := p + 1));
    if i.Some? {
      ArmsOk(t, arms, KOf(c, l.loop), i.value);
      LocalsMore(c.locals, s1.n, sa.n);
      v := SimArm(Z, t, ArmAt(arms, i.value), ArmLabel(first, i.value), PickDone(s1), c, l, n, sa, sF, end, env,
          q.cfg.tr, cfg, q1, fuel);
    } else {
      LocalsMore(c.locals, s1.n, sF.n);
      v := Via(q1.k, q1.cfg, s1, c, LOk(None));
    }
  }

  /** The label the switch goes to. */
  function PickLabel(arms: seq<Arm>, ty: Ty, v: int, s1: Out): Lbl {
    var i := ChosenArm(arms, ty, v);
    if i.Some? then ArmLabel(s1.lbl + 2, i.value) else PickDone(s1)
  }

  lemma PickTo(Z: Site, arms: seq<Arm>, ty: Ty, w: nat, x: Opd, v: int, n: nat, s1: Out, p: nat, cfg: Cfg, q: Got)
    requires Sound(Z) && w == Bits(ty) && Fits(Z, PickSwitch(w, x, arms, s1)) && Ran(Z, n, cfg, q) && At(Z, s1, q.cfg)
    requires Read(Z.w, q.cfg, w, x) == Some(Enc(w, v)) && Has(Z, p, Label(PickLabel(arms, ty, v, s1)))
    ensures Ran(Z, n, cfg, On(q, q.cfg.(pc := p + 1)))
  {
    var first, dflt := s1.lbl + 2, SwitchDefault(arms, s1);
    SwitchLine(Z, arms, w, x, s1);
    CaseIs(arms, first, ty, v, dflt);
    SwitchStep(Z, n, w, x, dflt, CasesOf(arms, first), Enc(w, v), p, cfg, q);
  }

  function SwitchDefault(arms: seq<Arm>, s: Out): Lbl {
    var wild := WildArm(arms);
    if wild.Some? then ArmLabel(s.lbl + 2, wild.value) else PickDone(s)
  }

  lemma SwitchLine(Z: Site, arms: seq<Arm>, w: nat, x: Opd, s: Out)
    requires Fits(Z, PickSwitch(w, x, arms, s))
    ensures Has(Z, Pos(Z, s), Switch(w, x, SwitchDefault(arms, s), CasesOf(arms, s.lbl + 2)))
  {
    Put(Z, s, Switch(w, x, SwitchDefault(arms, s), CasesOf(arms, s.lbl + 2)), PickSwitch(w, x, arms, s));
  }

  lemma SimArm(Z: Site, t: Sts, body: seq<Stmt>, lbl: Lbl, done: Lbl, c: Ctx, l: Around, n: nat, sa: Out, sF: Out,
          end: nat, env: Env, tr: seq<Event>, cfg: Cfg, q: Got, fuel: nat) returns (v: Via)
    requires Real(Z, t) && AroundOk(Z, c, l) && t.okBlock(body, KOf(c, l.loop)) && n <= sa.n
    requires ArmPlaced(Z, t, body, lbl, done, c, sa) && t.block(body, c, Start(sa, lbl)).n <= sF.n
    requires Has(Z, end, Label(done)) && Pos(Z, sF) == end + 1 && !sF.terminated
    requires Ran(Z, n, cfg, q) && In(Z, c, Start(sa, lbl), env, tr, q.cfg)
    ensures FlowPost(Z, t, c.defers, c, l, c, n, sF, cfg, t.scope(body, env, tr, fuel), fuel, v)
    decreases fuel, BSize(body) + 1, 7
  {
    var s0, out := Start(sa, lbl), t.scope(body, env, tr, fuel);
    var w := SimBlock(Z, t, body, c, l, s0, env, tr, q.cfg, fuel);
    v := BranchEnd(Z, t, c, l, n, s0.n, t.block(body, c, s0), done, end, sF, cfg, q, out, fuel, w);
  }

  // --- one statement --------------------------------------------------------------------------------------------

  lemma SimScope(Z: Site, t: Sts, b: seq<Stmt>, c: Ctx, l: Around, s: Out, env: Env, tr: seq<Event>, cfg: Cfg,
          fuel: nat) returns (v: Via)
    requires Real(Z, t) && In(Z, c, s, env, tr, cfg) && AroundOk(Z, c, l)
    requires t.okStmt(Block(b), KOf(c, l.loop)) && Fits(Z, t.stmt(Block(b), c, s))
    ensures FlowPost(Z, t, c.defers, c, l, c, s.n, t.stmt(Block(b), c, s), cfg, t.exec(Block(b), env, tr, fuel), fuel,
            v)
    decreases fuel, SSize(Block(b)), 2
  {
    var k := KOf(c, l.loop);
    assert t.okStmt(Block(b), k) == OkStmt(Block(b), k) && t.okBlock(b, k) == OkBlock(b, k);
    assert t.stmt(Block(b), c, s) == CStmt(Block(b), c, s) && t.block(b, c, s) == CBlock(b, c, s);
    assert t.exec(Block(b), env, tr, fuel) == Exec(Z.w.o, Z.g, Block(b), env, tr, fuel);
    assert t.scope(b, env, tr, fuel) == ExecBlock(Z.w.o, Z.g, b, env, tr, fuel);
    v := SimBlock(Z, t, b, c, l, s, env, tr, cfg, fuel);
  }

  lemma SimDefer(Z: Site, t: Sts, b: seq<Stmt>, c: Ctx, l: Around, s: Out, env: Env, tr: seq<Event>, cfg: Cfg,
          fuel: nat) returns (v: Via)
    requires Real(Z, t) && In(Z, c, s, env, tr, cfg)
    ensures FlowPost(Z, t, c.defers, c, l, After(Defer(b), c, s), s.n, t.stmt(Defer(b), c, s), cfg,
            t.exec(Defer(b), env, tr, fuel), fuel, v)
  {
    assert t.stmt(Defer(b), c, s) == CStmt(Defer(b), c, s);
    assert t.exec(Defer(b), env, tr, fuel) == Exec(Z.w.o, Z.g, Defer(b), env, tr, fuel);
    v := Via(0, cfg, s, c, LOk(None));
  }

  lemma SimStmt(Z: Site, t: Sts, st: Stmt, c: Ctx, l: Around, s: Out, env: Env, tr: seq<Event>, cfg: Cfg, fuel: nat)
          returns (v: Via)
    requires Real(Z, t) && In(Z, c, s, env, tr, cfg) && AroundOk(Z, c, l)
    requires t.okStmt(st, KOf(c, l.loop)) && Fits(Z, t.stmt(st, c, s))
    ensures FlowPost(Z, t, c.defers, c, l, After(st, c, s), s.n, t.stmt(st, c, s), cfg, t.exec(st, env, tr, fuel), fuel,
            v)
    decreases fuel, SSize(st), 3
  {
    match st {
      case Block(b) => v := SimScope(Z, t, b, c, l, s, env, tr, cfg, fuel);
      case If(e, th, els) => v := SimIf(Z, t, e, th, els, c, l, s, env, tr, cfg, fuel);
      case While(e, b) => v := SimWhile(Z, t, e, b, c, l, s, env, tr, cfg, fuel);
      case Pick(e, arms) => v := SimPick(Z, t, e, arms, c, l, s, env, tr, cfg, fuel);
      case _ => v := SimSimple(Z, t, st, c, l, s, env, tr, cfg, fuel);
    }
  }

  /** A statement without statements in it. */
  lemma SimSimple(Z: Site, t: Sts, st: Stmt, c: Ctx, l: Around, s: Out, env: Env, tr: seq<Event>, cfg: Cfg, fuel: nat)
          returns (v: Via)
    requires Real(Z, t) && In(Z, c, s, env, tr, cfg) && AroundOk(Z, c, l) && !st.Block? && !st.If? && !st.While?
             && !st.Pick?
    requires t.okStmt(st, KOf(c, l.loop)) && Fits(Z, t.stmt(st, c, s))
    ensures FlowPost(Z, t, c.defers, c, l, After(st, c, s), s.n, t.stmt(st, c, s), cfg, t.exec(st, env, tr, fuel), fuel,
            v)
  {
    match st {
      case VarDecl(x, ty, e) => v := SimDecl(Z, t, x, ty, e, c, l, s, env, tr, cfg, fuel);
      case Assign(x, op, e) =>
        if op.None? { v := SimAssign(Z, t, x, e, c, l, s, env, tr, cfg, fuel); }
        else { v := SimUpdate(Z, t, x, op.value, e, c, l, s, env, tr, cfg, fuel); }
      case ExprStmt(e) => v := SimExprStmt(Z, t, e, c, l, s, env, tr, cfg, fuel);
      case Trap(e) => v := SimTrap(Z, t, e, c, l, s, env, tr, cfg, fuel);
      case Defer(b) => v := SimDefer(Z, t, b, c, l, s, env, tr, cfg, fuel);
      case _ => v := SimGo(Z, t, st, c, l, s, env, tr, cfg, fuel);
    }
  }

  /** A statement that leaves the function or the loop's body. */
  lemma SimGo(Z: Site, t: Sts, st: Stmt, c: Ctx, l: Around, s: Out, env: Env, tr: seq<Event>, cfg: Cfg, fuel: nat)
          returns (v: Via)
    requires Real(Z, t) && In(Z, c, s, env, tr, cfg) && AroundOk(Z, c, l)
    requires st.Pass? || st.Fail? || st.Exit? || st.Break? || st.Continue?
    requires t.okStmt(st, KOf(c, l.loop)) && Fits(Z, t.stmt(st, c, s))
    ensures FlowPost(Z, t, c.defers, c, l, c, s.n, t.stmt(st, c, s), cfg, t.exec(st, env, tr, fuel), fuel, v)
  {
    if st.Break? || st.Continue? {
      v := SimJump(Z, t, st, c, l, s, env, tr, cfg, fuel);
    } else {
      v := SimLeave(Z, t, st, c, l, s, env, tr, cfg, fuel);
    }
  }
}
