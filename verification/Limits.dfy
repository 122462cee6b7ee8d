/** What the lowering does where its limits are passed. */
module Limits {
  import opened Words
  import opened Source
  import opened Target
  import opened Lowering
  import opened Checked
  import opened SimBase
  import opened SimFunc
  import opened Preservation
  import Shadowing

  const I32 := IntT(W32, true)

  // --- a relay in the operand of a leaving statement ------------------------------------------

  /** `h` answers an error; every other callee answers 0. */
  function Failing(tr: seq<Event>): Reply {
    if tr != [] && tr[|tr| - 1].callee == "h" then Reply(0, 7) else Reply(0, 0)
  }

  function G(): Event { Called("g", []) }
  function H(): Event { Called("h", []) }

  function Cleanup(): seq<Stmt> {
    [ExprStmt(ResultOf(Drop, Call("g", [])))]
  }

  function Leaver(): Stmt {
    Pass(Some(ResultOf(ResOp.Relay, Call("h", []))))
  }

  /** `{ defer { drop g(); } pass (relay h()); }` */
  function Twice(): Func {
    Func([], I32, false, [Defer(Cleanup()), Leaver()])
  }

  function TwiceSigs(): Sigs {
    map["g" := Sig([], NilT), "h" := Sig([], I32)]
  }

  lemma LeaverOk(k: Chk)
    requires k == Chk(map[], [[], [Cleanup()]], None, TwiceSigs(), Twice(), false)
    ensures OkStmt(Leaver(), k)
  {
    CleanupOk(InDefer(k));
    assert [Cleanup()][..0] == [] && k.defers[..1] == [[]] && k.defers[..1][..0] == [];
    assert OkFrame([Cleanup()], InDefer(k)) && OkFrames([[]], InDefer(k));
    assert TypeOf(Call("h", []), k.T, k.g) == Some(Rs(I32));
  }

  lemma TwiceOk()
    ensures OkFunc(Twice(), TwiceSigs())
  {
    var f := Twice();
    var k := Chk(map[], [[]], None, TwiceSigs(), f, false);
    var k1, k2 := k.(defers := [[], []]), k.(defers := [[], [Cleanup()]]);
    assert k.defers + [[]] == [[], []] && [] + [Cleanup()] == [Cleanup()];
    assert AfterK(Defer(Cleanup()), k1) == k2;
    CleanupOk(InDefer(k));
    CleanupOk(InDefer(k1));
    LeaverOk(k2);
    assert f.body[1..] == [Leaver()] && [Cleanup()][..0] == [];
    assert OkStmts(f.body, k1) && AfterAllK(f.body, k1) == AfterAllK([Leaver()], k2) == k2;
    assert DefersOf([Leaver()]) == [] && DefersOf(f.body) == [Cleanup()];
    assert OkFrame([Cleanup()], InDefer(k));
  }

  lemma CleanupOk(k: Chk)
    requires k.g == TwiceSigs() && k.inDefer
    ensures OkBlock(Cleanup(), k)
  {
    var k1, e := k.(defers := k.defers + [[]]), ResultOf(Drop, Call("g", []));
    assert TypeOf(Call("g", []), k.T, k.g) == Some(Rs(NilT));
    assert OkStmt(ExprStmt(e), k1);
    assert Cleanup()[1..] == [];
    assert DefersOf(Cleanup()) == [] by { assert DefersOf([]) == []; }
  }

  lemma CleanupRuns(tr: seq<Event>)
    ensures ExecBlock(Failing, TwiceSigs(), Cleanup(), map[], tr, 0) == Normal(map[], tr + [G()])
    ensures RunDefers(Failing, TwiceSigs(), [Cleanup()], map[], tr, 0) == Normal(map[], tr + [G()])
  {
    var o, g, e := Failing, TwiceSigs(), ResultOf(Drop, Call("g", []));
    assert EvalArgs(o, g, [], map[], tr) == AV([], tr);
    assert Eval(o, g, e, map[], tr) == EV(S(NilT, 0), tr + [G()]);
    assert Exec(o, g, ExprStmt(e), map[], tr, 0) == Normal(map[], tr + [G()]);
    assert Cleanup()[1..] == [] && Cleanup()[..1] == Cleanup();
    assert ExecStmts(o, g, Cleanup(), map[], tr, 0) == LO(Normal(map[], tr + [G()]), 1);
    assert DefersOf(Cleanup()) == [] by { assert DefersOf([]) == []; }
    assert [Cleanup()][..0] == [];
  }

  lemma TwiceLeaves()
    ensures ExecBlock(Failing, TwiceSigs(), Twice().body, map[], [], 0)
            == Leaving(OkOp(Leaver().result), map[], [G()], [[Cleanup()]])
  {
    var o, g, body, out := Failing, TwiceSigs(), Twice().body, Leaving(OkOp(Leaver().result), map[], [], []);
    assert Exec(o, g, Defer(Cleanup()), map[], [], 0) == Normal(map[], []);
    assert body[1..] == [Leaver()];
    assert Exec(o, g, Leaver(), map[], [], 0) == out;
    assert ExecStmts(o, g, [Leaver()], map[], [], 0) == LO(out, 0);
    assert ExecStmts(o, g, body, map[], [], 0) == LO(out, 1);
    assert body[..1] == [Defer(Cleanup())] && DefersOf([Defer(Cleanup())]) == [Cleanup()];
    CleanupRuns([]);
    assert [] + [G()] == [G()] && [[Cleanup()]] + [] == [[Cleanup()]];
  }

  lemma OperandRelays()
    ensures Eval(Failing, TwiceSigs(), Leaver().result.value, map[], [G()]) == ERelay(7, [G(), H()])
  {
    var o, g := Failing, TwiceSigs();
    ShiftAmount(32);
    EncSmall(32, 7);
    assert [G()] + [H()] == [G(), H()];
    assert EvalArgs(o, g, [], map[], [G()]) == AV([], [G()]);
    assert Eval(o, g, Call("h", []), map[], [G()]).val.code == 7;
  }

  /** By the meaning of `defer`, `g` is called once; the machine calls it again on the path that relays the
      error of `h`, so the emitted function is not the source function. */
  lemma TwiceRuns() returns (k: nat)
    ensures OkFunc(Twice(), TwiceSigs())
    ensures RunFunc(Failing, TwiceSigs(), Twice(), [], 0) == Finished(Err(7), [G(), H()])
    ensures Machine(Failing, [], Twice(), TwiceSigs(), 0,
            k) == Done(AnswerOf(Twice(), Finished(Err(7), [G(), H(), G()])))
  {
    TwiceOk();
    TwiceMeans();
    k := FunctionRun(Failing, TwiceSigs(), Twice(), [], 0, 0, 0);
  }

  lemma TwiceMeans()
    ensures RunFunc(Failing, TwiceSigs(), Twice(), [], 0) == Finished(Err(7), [G(), H()])
    ensures RunLowered(Failing, TwiceSigs(), Twice(), [], 0, 0) == Finished(Err(7), [G(), H(), G()])
  {
    var o, g := Failing, TwiceSigs();
    TwiceLeaves();
    OperandRelays();
    CleanupRuns([G(), H()]);
    assert [G(), H()] + [G()] == [G(), H(), G()] && [[Cleanup()]][..0] == [];
    assert RunFrames(o, g, [[Cleanup()]], map[], [G(), H()], 0) == Normal(map[], [G(), H(), G()]);
    assert Bind([], []) == map[];
  }

  // --- a name declared over a visible one -------------------------------------------------------

  function Late(): seq<Stmt> {
    [Assign("x", None, IntLit(1, I32))]
  }

  function Inner(name: string): seq<Stmt> {
    [VarDecl(name, I32, IntLit(5, I32)), Pass(Some(Var(name)))]
  }

  /** `{ int32 x = 0; defer { x = 1; } { int32 name = 5; pass name; } }` */
  function Shadow(name: string): Func {
    Func([], I32, false, [VarDecl("x", I32, IntLit(0, I32)), Defer(Late()), Block(Inner(name))])
  }

  function Quiet(tr: seq<Event>): Reply {
    Reply(0, 0)
  }

  /** The slot that the deferred assignment writes where `pass` runs it. */
  function LateSlot(name: string): nat {
    if name == "x" then 2 else 1
  }

  function ShadowLines(name: string): seq<Line> {
    [Store(32, Const(0), 1), Store(32, Const(5), 2), Store(32, Const(1), LateSlot(name)), Load(3, 32, 2),
     Insert(4, None, 32, Reg(3), 0), Insert(5, Some(Reg(4)), 32, Const(0), 1), RetAgg(Reg(5))]
  }

  /** What `pass` runs is what was registered if and only if the inner name is another. */
  lemma ShadowKeeps(name: string, c: Ctx, s: Out)
    requires c.inDefer && c.defers != [] && c.locals == map["x" := Local(1, I32)] && !s.terminated
    ensures CBlock(Late(), c, s) == CBlock(Late(), c.(locals := c.locals[name := Local(2, I32)]), s) <==> name != "x"
  {
    var c2 := c.(locals := c.locals[name := Local(2, I32)]);
    assert Late()[1..] == [] && DefersOf(Late()) == [] by { assert DefersOf([]) == []; }
    assert Shadowing.NamesOfBlock(Late(), c.g) == ["x"];
    assert "x" in ["x"];
    Shadowing.DeferKeeps(Late(), c, c2, s);
  }

  lemma LateLines(c: Ctx, s: Out)
    requires !s.terminated
    ensures var l := SlotOf(c, "x"); CBlock(Late(), c, s) == W(s, Store(Bits(l.ty), Const(1), l.slot))
  {
    var c0, st := c.(defers := c.defers + [[]]), Late()[0];
    var s1 := CStmt(st, c0, s);
    assert CExpr(IntLit(1, I32), c0, s) == (s, Const(1));
    assert Late()[1..] == [];
    assert CStmts(Late(), c0, s) == (s1, c0);
    assert DefersOf(Late()) == [] by { assert DefersOf([]) == []; }
  }

  lemma PassLines(name: string, c: Ctx, s: Out)
    requires c.defers == [[], [Late()], []] && !c.inDefer && c.fn == Shadow(name) && !s.terminated && s.n == 2
    requires c.locals == map["x" := Local(1, I32)][name := Local(2, I32)] && s.body == ShadowLines(name)[..2]
    ensures CStmt(Pass(Some(Var(name))), c, s) == s.(body := ShadowLines(name), n := 5, terminated := true)
  {
    var m := LOk(Some(Var(name)));
    var s1 := W(s, Store(32, Const(1), LateSlot(name)));
    PassUnwinds(name, m, c, s, s1);
    assert CExpr(Var(name), c, s1) == (Ins1(s1, Load(3, 32, 2)), Reg(3));
  }

  lemma PassUnwinds(name: string, m: Leave, c: Ctx, s: Out, s1: Out)
    requires c.defers == [[], [Late()], []] && !c.inDefer && !s.terminated
             && s1 == W(s, Store(32, Const(1), LateSlot(name)))
    requires c.locals == map["x" := Local(1, I32)][name := Local(2, I32)]
    ensures CUnwind(c.defers, m, c, s) == CLeave(m, c, s1)
  {
    var cd := c.(inDefer := true);
    LateLines(cd, s);
    assert c.defers[..2] == [[], [Late()]] && [[], [Late()]][..1] == [[]] && [Late()][..0] == [];
    assert CDefers([], cd, s) == s && CDefers([], cd, s1) == s1 && CDefers([Late()], cd, s) == s1;
    assert CUnwind([], m, c, s1) == CLeave(m, c, s1);
    assert [[]][..0] == c.defers[..0] && c.defers[..0] == [];
    assert CUnwind([[]], m, c, s1) == CLeave(m, c, s1);
    assert CUnwind([[], [Late()]], m, c, s) == CLeave(m, c, s1);
  }

  lemma ShadowText(name: string)
    ensures TextOf(CFunc(Shadow(name), map[], 0)) == [Label(Entry), Alloca(1, 32), Alloca(2, 32)] + ShadowLines(name)
  {
    var f := Shadow(name);
    var c, s := Ctx(map[], [[]], [], map[], f, false), Out([], [], 0, 0, false);
    var c1, s1 := c.(defers := [[], []], locals := map["x" := Local(1, I32)]),
        Out([Alloca(1, 32)], [Store(32, Const(0), 1)], 1, 0, false);
    var c2 := c1.(defers := [[], [Late()]]);
    var r := Out([Alloca(1, 32), Alloca(2, 32)], ShadowLines(name), 5, 0, true);
    assert c.defers + [[]] == [[], []];
    assert CStmt(f.body[0], c1.(locals := map[]), s) == s1;
    assert After(f.body[0], c1.(locals := map[]), s) == c1 by {
      assert map[]["x" := Local(1, I32)] == map["x" := Local(1, I32)];
    }
    assert [] + [Late()] == [Late()] && c1.defers[1 := [Late()]] == c2.defers;
    assert CStmt(f.body[1], c1, s1) == s1 && After(f.body[1], c1, s1) == c2;
    InnerLines(name, c2, s1);
    assert f.body[1..] == [f.body[1], f.body[2]] && f.body[1..][1..] == [f.body[2]] && [f.body[2]][1..] == [];
    assert CStmts([f.body[2]], c2, s1) == (r, c2);
    assert CStmts(f.body[1..], c1, s1) == (r, c2);
    assert CStmts(f.body, c1.(locals := map[]), s) == (r, c2);
    assert CBlock(f.body, c, s) == r;
  }

  lemma InnerLines(name: string, c: Ctx, s: Out)
    requires c.defers == [[], [Late()]] && !c.inDefer && c.fn == Shadow(name) && c.locals == map["x" := Local(1, I32)]
    requires s == Out([Alloca(1, 32)], [Store(32, Const(0), 1)], 1, 0, false)
    ensures CStmt(Block(Inner(name)), c, s) == Out([Alloca(1, 32), Alloca(2, 32)], ShadowLines(name), 5, 0, true)
  {
    var c0, st, leave := c.(defers := [[], [Late()], []]), Inner(name)[0], Inner(name)[1];
    var s1, c1 := CStmt(st, c0, s), After(st, c0, s);
    assert c.defers + [[]] == c0.defers && [Alloca(1, 32)] + [Alloca(2, 32)] == [Alloca(1, 32), Alloca(2, 32)];
    assert ShadowLines(name)[..2] == [Store(32, Const(0), 1)] + [Store(32, Const(5), 2)];
    assert st == VarDecl(name, I32, IntLit(5, I32));
    assert CExpr(IntLit(5, I32), c0, AllocaAt(Tmp(s), 2, 32)) == (AllocaAt(Tmp(s), 2, 32), Const(5));
    assert s1.body == ShadowLines(name)[..2] && s1.n == 2;
    assert s1 == Out([Alloca(1, 32), Alloca(2, 32)], ShadowLines(name)[..2], 2, 0, false);
    PassLines(name, c1, s1);
    var r := CStmt(leave, c1, s1);
    assert Inner(name)[1..] == [leave] && [leave][1..] == [];
    assert CStmts([leave], c1, s1) == (r, c1);
    assert CStmts(Inner(name), c0, s) == (r, c1);
    assert CBlock(Inner(name), c, s) == r;
  }

  /** The answer is 5 for every name of the inner variable but one; declared over `x`, it is what the defer wrote. */
  lemma ShadowRuns(name: string)
    ensures Machine(Quiet, [], Shadow(name), map[], 0, 9)
            == Done(Returned(Agg(map[0 := if name == "x" then 1 else 5, 1 := 0]), []))
  {
    ShadowText(name);
    var w := World(Quiet, [], TextOf(CFunc(Shadow(name), map[], 0)));
    var c0 := Cfg(1, map[], map[], []);
    var c5 := ShadowStores(name, w);
    ShadowEnd(name, w);
    ShadowAnswer(w, if name == "x" then 1 else 5, c5);
    StepsAdd(Stepper(w), c0, 5, c5, 4);
  }

  lemma ShadowStores(name: string, w: World) returns (c: Cfg)
    requires w.text == [Label(Entry), Alloca(1, 32), Alloca(2, 32)] + ShadowLines(name)
    ensures Steps(Stepper(w), Cfg(1, map[], map[], []), 5) == Run(c)
    ensures c.pc == 6 && c.regs == map[] && c.tr == [] && 2 in c.mem
            && c.mem[2] == Cell(32, Some(if name == "x" then 1 else 5))
  {
    Constants();
    var t, step, c0 := w.text, Stepper(w), Cfg(1, map[], map[], []);
    assert t[1] == Alloca(1, 32) && t[2] == Alloca(2, 32) && t[3] == Store(32, Const(0), 1)
        && t[4] == Store(32, Const(5), 2);
    assert t[5] == Store(32, Const(1), LateSlot(name));
    var c1 := Cfg(2, map[], map[1 := Cell(32, None)], []);
    var c2 := Cfg(3, map[], map[1 := Cell(32, None), 2 := Cell(32, None)], []);
    var c3 := Cfg(4, map[], c2.mem[1 := Cell(32, Some(0))], []);
    var c4 := Cfg(5, map[], c3.mem[2 := Cell(32, Some(5))], []);
    c := Cfg(6, map[], c4.mem[LateSlot(name) := Cell(32, Some(1))], []);
    assert Step(w, c0) == Run(c1) && Step(w, c1) == Run(c2);
    assert Step(w, c2) == Run(c3) && Step(w, c3) == Run(c4) && Step(w, c4) == Run(c);
    TwoSteps(step, c0, c1, c2);
    TwoSteps(step, c2, c3, c4);
    StepsAdd(step, c0, 2, c2, 2);
    Snoc(step, c0, 4, c4);
  }

  lemma Constants()
    ensures Enc(32, 0) == 0 && Enc(32, 1) == 1 && Enc(32, 5) == 5
  {
    ShiftAmount(32);
    EncSmall(32, 0);
    EncSmall(32, 1);
    EncSmall(32, 5);
  }

  lemma TwoSteps(step: Cfg -> MR, a: Cfg, b: Cfg, c: Cfg)
    requires step(a) == Run(b) && step(b) == Run(c)
    ensures Steps(step, a, 2) == Run(c)
  {
    assert Steps(step, c, 0) == Run(c) && Steps(step, b, 1) == Run(c);
  }

  lemma ShadowEnd(name: string, w: World)
    requires w.text == [Label(Entry), Alloca(1, 32), Alloca(2, 32)] + ShadowLines(name)
    ensures |w.text| == 10 && w.text[6] == Load(3, 32, 2) && w.text[7] == Insert(4, None, 32, Reg(3), 0)
    ensures w.text[8] == Insert(5, Some(Reg(4)), 32, Const(0), 1) && w.text[9] == RetAgg(Reg(5))
  {}

  lemma ShadowAnswer(w: World, v: nat, c: Cfg)
    requires |w.text| == 10 && w.text[6] == Load(3, 32, 2) && w.text[7] == Insert(4, None, 32, Reg(3), 0)
    requires w.text[8] == Insert(5, Some(Reg(4)), 32, Const(0), 1) && w.text[9] == RetAgg(Reg(5))
    requires c.pc == 6 && c.regs == map[] && c.tr == [] && 2 in c.mem && c.mem[2] == Cell(32, Some(v))
    ensures Steps(Stepper(w), c, 4) == Done(Returned(Agg(map[0 := v, 1 := 0]), []))
  {
    Constants();
    var step := Stepper(w);
    var c1 := c.(pc := 7, regs := map[3 := Word(32, v)]);
    var c2 := c1.(pc := 8, regs := c1.regs[4 := Agg(map[0 := v])]);
    var c3 := c2.(pc := 9, regs := c2.regs[5 := Agg(map[0 := v, 1 := 0])]);
    assert Step(w, c) == Run(c1) && Step(w, c1) == Run(c2) && Step(w, c2) == Run(c3);
    assert Step(w, c3) == Done(Returned(Agg(map[0 := v, 1 := 0]), []));
    TwoSteps(step, c, c1, c2);
    Snoc(step, c, 2, c2);
    Snoc(step, c, 3, c3);
  }

  lemma InnerRuns(name: string, env: Env, env1: Env)
    requires name !in env && env1 == env[name := TV(I32, 5)]
    ensures Exec(Quiet, map[], Block(Inner(name)), env, [], 0) == Leaving(OkOp(Some(Var(name))), env1, [], [[]])
  {
    var o, g: Sigs, st := Quiet, map[], Inner(name);
    var out := Leaving(OkOp(Some(Var(name))), env1, [], []);
    WrapSmall();
    assert Exec(o, g, st[0], env, [], 0) == Normal(env1, []) && Exec(o, g, st[1], env1, [], 0) == out;
    assert st[1..] == [st[1]];
    assert ExecStmts(o, g, [st[1]], env1, [], 0) == LO(out, 0);
    assert ExecStmts(o, g, st, env, [], 0) == LO(out, 1);
    assert st[..1] == [st[0]] && st[..1][1..] == [] && DefersOf(st[..1]) == [] by { assert DefersOf([]) == []; }
    assert RunDefers(o, g, [], env1, [], 0) == Normal(env1, []);
    assert out.left == [] && [DefersOf(st[..1])] + out.left == [[]];
    assert ExecBlock(o, g, st, env, [], 0) == Leaving(OkOp(Some(Var(name))), env1, [], [[]]);
  }

  lemma BodyRuns(name: string, env: Env, out: SO)
    requires env == map["x" := TV(I32, 0)] && Exec(Quiet, map[], Block(Inner(name)), env, [], 0) == out && out.Leaving?
    ensures ExecStmts(Quiet, map[], Shadow(name).body, map[], [], 0) == LO(out, 2)
    ensures DefersOf(Shadow(name).body[..2]) == [Late()]
  {
    var o, g: Sigs, body := Quiet, map[], Shadow(name).body;
    WrapSmall();
    assert Exec(o, g, body[0], map[], [], 0) == Normal(env, []) && Exec(o, g, body[1], env, [], 0) == Normal(env, []);
    assert body[1..] == [body[1], body[2]] && body[1..][1..] == [body[2]];
    assert ExecStmts(o, g, [body[2]], env, [], 0) == LO(out, 0);
    assert ExecStmts(o, g, body[1..], env, [], 0) == LO(out, 1);
    assert body[..2][1..] == [body[1]] && DefersOf([body[1]]) == [Late()];
  }

  lemma WholeRuns(name: string, env: Env)
    requires name != "x" && env == map["x" := TV(I32, 1), name := TV(I32, 5)]
    ensures ExecBlock(Quiet, map[], Shadow(name).body, map[], [], 0) == Leaving(OkOp(Some(Var(name))), env, [],
            [[Late()], []])
  {
    var env0: Env := map["x" := TV(I32, 0)];
    var env1 := env0[name := TV(I32, 5)];
    InnerRuns(name, env0, env1);
    BodyRuns(name, env0, Leaving(OkOp(Some(Var(name))), env1, [], [[]]));
    assert env1["x" := TV(I32, 1)] == env;
    LateRuns(env1, env);
    assert [[Late()]] + [[]] == [[Late()], []];
    ScopeLeft(Quiet, map[], Shadow(name).body, map[], [], OkOp(Some(Var(name))), env1, [[]], 2, env);
  }

  /** A leave out of a scope whose defers run to the end in silence. */
  lemma ScopeLeft(o: Oracle, g: Sigs, ss: seq<Stmt>, env: Env, tr: seq<Event>, op: LeaveOp, env1: Env, left: Frames,
          n: nat, env2: Env)
    requires n <= |ss| && ExecStmts(o, g, ss, env, tr, 0) == LO(Leaving(op, env1, tr, left), n)
    requires RunDefers(o, g, DefersOf(ss[..n]), env1, tr, 0) == Normal(env2, tr)
    ensures ExecBlock(o, g, ss, env, tr, 0) == Leaving(op, env2, tr, [DefersOf(ss[..n])] + left)
  {}

  /** By the meaning of the names, the inner variable is its own and `pass` answers it. */
  lemma ShadowMeans(name: string)
    requires name != "x"
    ensures RunFunc(Quiet, map[], Shadow(name), [], 0) == Finished(Ok(5), [])
  {
    var env: Env := map["x" := TV(I32, 1), name := TV(I32, 5)];
    WholeRuns(name, env);
    assert Eval(Quiet, map[], Var(name), env, []) == EV(S(I32, 5), []);
  }

  lemma WrapSmall()
    ensures Wrap(I32, 0) == 0 && Wrap(I32, 1) == 1 && Wrap(I32, 5) == 5
  {
    ShiftAmount(32);
    DecEnc(I32, 0);
    DecEnc(I32, 1);
    DecEnc(I32, 5);
  }

  lemma LateRuns(env: Env, env2: Env)
    requires "x" in env && env2 == env["x" := TV(I32, 1)]
    ensures RunDefers(Quiet, map[], [Late()], env, [], 0) == Normal(env2, [])
  {
    var o, g: Sigs := Quiet, map[];
    WrapSmall();
    assert Exec(o, g, Late()[0], env, [], 0) == Normal(env2, []);
    assert Late()[1..] == [] && Late()[..1] == Late();
    assert ExecStmts(o, g, Late(), env, [], 0) == LO(Normal(env2, []), 1);
    assert DefersOf(Late()) == [] by { assert DefersOf([]) == []; }
    assert Restrict(env2, env.Keys) == env2;
    assert ExecBlock(o, g, Late(), env, [], 0) == Normal(env2, []);
    assert [Late()][..0] == [];
  }

  // --- a `break` past a defer -------------------------------------------------------------------

  /** `{ while (true) { defer b; break; } }` */
  function Skips(b: seq<Stmt>): Func {
    Func([], NilT, false, [While(BoolLit(true), SkipBody(b))])
  }

  function SkipBody(b: seq<Stmt>): seq<Stmt> {
    [Defer(b), Break]
  }

  function SkipLines(): seq<Line> {
    var head, body, done := L(WhTop, 1), L(WhTrip, 2), L(WhEnd, 3);
    [Br(head), Label(head), Icmp(1, PNe, 8, Const(1), Const(0)), CondBr(Reg(1), body, done), Label(body), Br(done),
     Label(done), RetZero(Lone)]
  }

  /** The loop's body is lowered without the defer: the jump has ended the block before its frame is run. */
  lemma SkipBlock(b: seq<Stmt>, c: Ctx, s: Out)
    requires c.loops != [] && !s.terminated
    ensures CBlock(SkipBody(b), c, s) == BrTo(s, c.loops[|c.loops| - 1].done)
  {
    var ss, c1 := SkipBody(b), c.(defers := c.defers + [[]]);
    var c2 := After(ss[0], c1, s);
    assert CStmt(ss[0], c1, s) == s && CStmt(Break, c2, s) == BrTo(s, c.loops[|c.loops| - 1].done);
    assert ss[1..] == [Break] && [Break][1..] == [];
    assert CStmts([Break], c2, s) == (BrTo(s, c.loops[|c.loops| - 1].done), c2);
    assert CStmts(ss, c1, s) == (BrTo(s, c.loops[|c.loops| - 1].done), c2);
  }

  lemma SkipText(b: seq<Stmt>, g: Sigs)
    ensures TextOf(CFunc(Skips(b), g, 0)) == [Label(Entry)] + SkipLines()
  {
    var f, t := Skips(b), BoolLit(true);
    var c, s := Ctx(map[], [[], []], [], g, f, false), Out([], [], 0, 0, false);
    var cl := c.(loops := [] + [Loop(WhHead(s), WhDone(s))]);
    var h := WhStart(s);
    assert c.(defers := [[]]).defers + [[]] == c.defers;
    assert CExpr(t, c, h) == (h, Const(1)) && TypeOf(t, TypesOf(c.locals), g) == Some(Sc(BoolT));
    var s1 := CondTail(8, Const(1), h);
    assert CCond(t, c, h) == (s1, Reg(1));
    SkipBlock(b, cl, WhTest(s, Reg(1), s1));
    var r := CWhile(t, SkipBody(b), c, s);
    WhileIs(t, SkipBody(b), c, s);
    assert r == Out([], SkipLines()[..7], 1, 3, false);
    assert f.body[1..] == [] && CStmts(f.body, c, s) == (r, c);
    assert DefersOf(f.body) == [] by { assert DefersOf([]) == []; }
    assert CBlock(f.body, c.(defers := [[]]), s) == r;
  }

  lemma {:induction false} Found(text: seq<Line>, i: nat, l: Lbl)
    requires i < |text| && text[i] == Label(l) && forall j :: 0 <= j < i ==> text[j] != Label(l)
    ensures FindLabel(text, l) == Some(i)
    decreases |text|
  {
    if i > 0 { Found(text[1..], i - 1, l); }
  }

  lemma SkipLabels(t: seq<Line>)
    requires t == [Label(Entry)] + SkipLines()
    ensures FindLabel(t, L(WhTop, 1)) == Some(2) && FindLabel(t, L(WhTrip, 2)) == Some(5)
            && FindLabel(t, L(WhEnd, 3)) == Some(7)
    ensures |t| == 9 && t[1] == Br(L(WhTop, 1)) && t[3] == Icmp(1, PNe, 8, Const(1), Const(0))
            && t[4] == CondBr(Reg(1), L(WhTrip, 2), L(WhEnd, 3)) && t[6] == Br(L(WhEnd, 3)) && t[8] == RetZero(Lone)
  {
    Found(t, 2, L(WhTop, 1));
    Found(t, 5, L(WhTrip, 2));
    Found(t, 7, L(WhEnd, 3));
  }

  /** The states such a run goes through. */
  lemma SkipSteps(w: World, c0: Cfg)
    requires |w.text| == 9 && w.text[1] == Br(L(WhTop, 1)) && w.text[3] == Icmp(1, PNe, 8, Const(1), Const(0))
             && w.text[4] == CondBr(Reg(1), L(WhTrip, 2), L(WhEnd, 3)) && w.text[6] == Br(L(WhEnd, 3))
             && w.text[8] == RetZero(Lone)
    requires FindLabel(w.text, L(WhTop, 1)) == Some(2) && FindLabel(w.text, L(WhTrip, 2)) == Some(5)
             && FindLabel(w.text, L(WhEnd, 3)) == Some(7)
    requires c0 == Cfg(1, map[], map[], [])
    ensures var c2 := c0.(pc := 4, regs := map[1 := Word(1, 1)]);
            && Step(w, c0) == Run(c0.(pc := 3)) && Step(w, c0.(pc := 3)) == Run(c2) && Step(w, c2) == Run(c2.(pc := 6))
            && Step(w, c2.(pc := 6)) == Run(c2.(pc := 8))
            && Step(w, c2.(pc := 8)) == Done(Returned(Agg(map[0 := 0]), []))
  {
    var c2 := c0.(pc := 4, regs := map[1 := Word(1, 1)]);
    assert c0.(pc := 3).regs[1 := Word(1, 1)] == c2.regs;
    TestTrue(w, c0.(pc := 3));
    Jumps(w, c0, L(WhTop, 1), 2);
    Jumps(w, c2, L(WhTrip, 2), 5);
    Jumps(w, c2.(pc := 6), L(WhEnd, 3), 7);
  }

  lemma TestTrue(w: World, c: Cfg)
    requires c.pc < |w.text| && w.text[c.pc] == Icmp(1, PNe, 8, Const(1), Const(0))
    ensures Step(w, c) == Run(c.(pc := c.pc + 1, regs := c.regs[1 := Word(1, 1)]))
  {
    ShiftAmount(8);
    EncSmall(8, 1);
    EncSmall(8, 0);
  }

  lemma Jumps(w: World, c: Cfg, l: Lbl, i: nat)
    requires c.pc < |w.text| && FindLabel(w.text, l) == Some(i)
    requires w.text[c.pc] == Br(l)
             || (w.text[c.pc].CondBr? && w.text[c.pc].o == Reg(1) && w.text[c.pc].yes == l && 1 in c.regs
                 && c.regs[1] == Word(1, 1))
    ensures Step(w, c) == Run(c.(pc := i + 1))
  {}

  /** As emitted, the function ends at once and calls nothing, whatever is deferred. */
  lemma SkipRuns(b: seq<Stmt>, o: Oracle, g: Sigs)
    ensures Machine(o, [], Skips(b), g, 0, 5) == Done(Returned(Agg(map[0 := 0]), []))
  {
    SkipText(b, g);
    var w := World(o, [], [Label(Entry)] + SkipLines());
    var step, c0 := Stepper(w), Cfg(1, map[], map[], []);
    var c2 := c0.(pc := 4, regs := map[1 := Word(1, 1)]);
    SkipLabels(w.text);
    SkipSteps(w, c0);
    TwoSteps(step, c0, c0.(pc := 3), c2);
    TwoSteps(step, c2, c2.(pc := 6), c2.(pc := 8));
    StepsAdd(step, c0, 2, c2, 2);
    Snoc(step, c0, 4, c2.(pc := 8));
  }

  /** By the meaning of `defer` its body runs once; so the function is right exactly when that run comes to its
      end in silence. */
  lemma SkipMeans(b: seq<Stmt>, o: Oracle, g: Sigs, fuel: nat)
    requires fuel > 0
    requires var ran := RunDefers(o, g, [b], map[], [], fuel - 1); ran.Normal? || ran.Halted? || ran.OutOfFuel?
    ensures Machine(o, [], Skips(b), g, 0, 5) == Done(AnswerOf(Skips(b), Finished(Ok(0), [])))
    ensures RunFunc(o, g, Skips(b), [], fuel) == Finished(Ok(0), [])
            <==> Idle(RunDefers(o, g, [b], map[], [], fuel - 1), [])
  {
    SkipRuns(b, o, g);
    SkipLoop(b, o, g, fuel - 1);
    var body := Skips(b).body;
    assert body[1..] == [] && Bind([], []) == map[];
    SkipWhole(body, o, g, Exec(o, g, body[0], map[], [], fuel), fuel);
  }

  lemma SkipLoop(b: seq<Stmt>, o: Oracle, g: Sigs, rest: nat)
    requires var ran := RunDefers(o, g, [b], map[], [], rest); ran.Normal? || ran.Halted? || ran.OutOfFuel?
    ensures var ran := RunDefers(o, g, [b], map[], [], rest);
            Exec(o, g, Skips(b).body[0], map[], [], rest + 1) == if ran.Normal? then Normal(map[], ran.tr) else ran
  {
    var f, ss, ran := Skips(b), SkipBody(b), RunDefers(o, g, [b], map[], [], rest);
    var out := Broke(map[], []);
    assert ss[1..] == [Break] && Exec(o, g, Break, map[], [], rest) == out;
    assert ExecStmts(o, g, [Break], map[], [], rest) == LO(out, 0);
    assert ExecStmts(o, g, ss, map[], [], rest) == LO(out, 1);
    assert ss[..1] == [Defer(b)] && DefersOf([Defer(b)]) == [b];
    assert ExecBlock(o, g, ss, map[], [], rest) == AfterDefers(out, [b], ran, {});
  }

  /** A body of one statement that registers nothing. */
  lemma SkipWhole(ss: seq<Stmt>, o: Oracle, g: Sigs, out: SO, fuel: nat)
    requires |ss| == 1 && !ss[0].Defer? && out == Exec(o, g, ss[0], map[], [], fuel)
    ensures out.Normal? && out.env == map[] ==> ExecBlock(o, g, ss, map[], [], fuel) == out
    ensures out.Halted? || out.OutOfFuel? ==> ExecBlock(o, g, ss, map[], [], fuel) == out
  {
    assert ss[1..] == [] && DefersOf([]) == [];
    assert ss[..1] == ss && DefersOf(ss) == [];
    if out.Normal? {
      assert ExecStmts(o, g, ss, map[], [], fuel) == LO(out, 1);
      assert RunDefers(o, g, [], out.env, out.tr, fuel) == out;
    } else {
      assert ExecStmts(o, g, ss, map[], [], fuel) == LO(out, 0);
    }
  }

  // --- a default for a Result of NIL ------------------------------------------------------------

  /** `e ?| d` as it reads: the value, or on an error the default. */
  function Unwrapped(o: Oracle, g: Sigs, a: Expr, d: Expr, env: Env, tr: seq<Event>): EO {
    var r := Eval(o, g, a, env, tr);
    if !r.EV? then r
    else if !IsError(r.val) then EV(S(r.val.ty, r.val.v), r.tr)
    else
      var r1 := Eval(o, g, d, env, r.tr);
      if r1.EV? then EV(S(r1.val.ty, r1.val.v), r1.tr) else r1
  }

  /** Nothing but the one value of NIL, and no call. */
  predicate OnlyNil(out: EO, v: int, tr: seq<Event>) {
    out.EV? && out.tr == tr && out.val.ty.NilT? && out.val.v == v
  }

  /** For a Result of NIL the default is not lowered: that shows exactly when there is an error and the default
      does anything but answer NIL in silence. */
  lemma FallbackSkipped(o: Oracle, g: Sigs, a: Expr, d: Expr, env: Env, tr: seq<Event>)
    ensures var r := Eval(o, g, a, env, tr);
            Eval(o, g, SafeUnwrap(a, d), env, tr) == Unwrapped(o, g, a, d, env, tr)
            <==> (r.EV? && IsError(r.val) && r.val.ty.NilT? ==> OnlyNil(Eval(o, g, d, env, r.tr), r.val.v, r.tr))
  {}

  /** `f` answers an error; every other callee answers 0. */
  function Broken(tr: seq<Event>): Reply {
    if tr != [] && tr[|tr| - 1].callee == "f" then Reply(0, 7) else Reply(0, 0)
  }

  function F(): Event { Called("f", []) }

  function NilSigs(): Sigs {
    map["f" := Sig([], NilT), "g" := Sig([], NilT)]
  }

  function CallF(): Expr { Call("f", []) }
  function DropG(): Expr { ResultOf(Drop, Call("g", [])) }

  /** `{ f() ?| drop g(); }` */
  function Fallback(): Func {
    Func([], NilT, false, [ExprStmt(SafeUnwrap(CallF(), DropG()))])
  }

  lemma FallbackOk()
    ensures OkFunc(Fallback(), NilSigs())
  {
    var f := Fallback();
    var k := Chk(map[], [[]], None, NilSigs(), f, false);
    var k1 := k.(defers := k.defers + [[]]);
    assert TypeOf(CallF(), k.T, k.g) == Some(Rs(NilT)) && TypeOf(DropG(), k.T, k.g) == Some(Sc(NilT));
    assert TypeOf(SafeUnwrap(CallF(), DropG()), k.T, k.g) == Some(Sc(NilT));
    assert OkStmt(f.body[0], k1);
    assert f.body[1..] == [] && OkStmts(f.body, k1);
    assert DefersOf(f.body) == [] by { assert DefersOf([]) == []; }
    assert ParamTypes([]) == map[];
  }

  lemma FallbackEval(tr: seq<Event>)
    requires tr == []
    ensures Eval(Broken, NilSigs(), SafeUnwrap(CallF(), DropG()), map[], tr) == EV(S(NilT, 0), [F()])
    ensures Unwrapped(Broken, NilSigs(), CallF(), DropG(), map[], tr) == EV(S(NilT, 0), [F(), G()])
  {
    var o, g := Broken, NilSigs();
    ShiftAmount(32);
    EncSmall(32, 7);
    EncSmall(32, 0);
    assert [] + [F()] == [F()] && [F()] + [G()] == [F(), G()];
    assert EvalArgs(o, g, [], map[], []) == AV([], []) && EvalArgs(o, g, [], map[], [F()]) == AV([], [F()]);
    assert Eval(o, g, CallF(), map[], []) == EV(R(NilT, 0, 7), [F()]);
    assert Eval(o, g, DropG(), map[], [F()]) == EV(S(NilT, 0), [F(), G()]);
  }

  /** `f` fails, and the emitted function calls nothing more; as it reads, it would call `g`. */
  lemma FallbackRuns() returns (k: nat)
    ensures OkFunc(Fallback(), NilSigs())
    ensures Machine(Broken, [], Fallback(), NilSigs(), 0, k) == Done(AnswerOf(Fallback(), Finished(Ok(0), [F()])))
    ensures Unwrapped(Broken, NilSigs(), CallF(), DropG(), map[], []) == EV(S(NilT, 0), [F(), G()])
  {
    FallbackOk();
    FallbackEval([]);
    var o, g, ss, out := Broken, NilSigs(), Fallback().body, Normal(map[], [F()]);
    assert Exec(o, g, ss[0], map[], [], 0) == out;
    assert ss[1..] == [] && ExecStmts(o, g, [], map[], [F()], 0) == LO(out, 0);
    assert ExecStmts(o, g, ss, map[], [], 0) == LO(out, 1);
    assert ss[..1] == ss && DefersOf(ss) == [] by { assert DefersOf([]) == []; }
    assert RunDefers(o, g, [], map[], [F()], 0) == out;
    assert Bind([], []) == map[];
    assert RunFunc(o, g, Fallback(), [], 0) == Finished(Ok(0), [F()]);
    k := FunctionRun(o, g, Fallback(), [], 0, 0, 0);
  }
}
