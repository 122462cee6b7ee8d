/** Every emitted function is laid out well: labels are defined once, branches go to them, and each slot is
    allocated once. */
module Layout {
  import opened Words
  import opened Source
  import opened Target
  import opened Lowering

  /** How often a label is defined in the first `k` lines. */
  function DefsTo(xs: seq<Line>, k: nat): multiset<Lbl>
    requires k <= |xs|
  {
    if k == 0 then multiset{}
    else
      var x, rest := xs[k - 1], DefsTo(xs, k - 1);
      if x.Label? then rest + multiset{x.l} else rest
  }

  function Defs(xs: seq<Line>): multiset<Lbl> {
    DefsTo(xs, |xs|)
  }

  function Targets(x: Line): set<Lbl> {
    match x
    case Br(l) => {l}
    case CondBr(_, yes, no) => {yes, no}
    case Switch(_, _, dflt, cases) => {dflt} + CaseLabels(cases)
    case _ => {}
  }

  function CaseLabels(cases: seq<(int, Lbl)>): set<Lbl> {
    set i | 0 <= i < |cases| :: cases[i].1
  }

  /** The labels branched to in the first `k` lines. */
  function UsesTo(xs: seq<Line>, k: nat): set<Lbl>
    requires k <= |xs|
  {
    if k == 0 then {} else UsesTo(xs, k - 1) + Targets(xs[k - 1])
  }

  function Uses(xs: seq<Line>): set<Lbl> {
    UsesTo(xs, |xs|)
  }

  lemma {:induction false} SameFront(xs: seq<Line>, ys: seq<Line>, k: nat)
    requires xs <= ys && k <= |xs|
    ensures DefsTo(xs, k) == DefsTo(ys, k) && UsesTo(xs, k) == UsesTo(ys, k)
  {
    if k > 0 { SameFront(xs, ys, k - 1); }
  }

  lemma {:induction false} LineLast(xs: seq<Line>)
    requires xs != []
    ensures var x, rest := xs[|xs| - 1], xs[..|xs| - 1];
            Defs(xs) == (if x.Label? then Defs(rest) + multiset{x.l} else Defs(rest))
                && Uses(xs) == Uses(rest) + Targets(x)
  {
    SameFront(xs[..|xs| - 1], xs, |xs| - 1);
  }

  /** The allocas name slots in increasing order, up to the counter. */
  ghost predicate HeadOk(s: Out) {
    && (forall i :: 0 <= i < |s.head| ==> s.head[i].Alloca? && s.head[i].slot <= s.n)
    && (forall i, j :: 0 <= i < j < |s.head| ==> s.head[i].slot < s.head[j].slot)
  }

  predicate Fresh(l: Lbl, lo: nat, hi: nat) {
    l.L? && lo < l.id <= hi
  }

  /** At most one definition of a label of the set `A` and of each label numbered since, and none of any other. */
  ghost predicate Defines(s: Out, s1: Out, A: set<Lbl>) {
    forall l :: Defs(s.body)[l] <= Defs(s1.body)[l] <= Defs(s.body)[l] + (if l in A || Fresh(l, s.lbl, s1.lbl) then 1
        else 0)
  }

  /** New branches go to labels defined by now, or to those of `P`. */
  ghost predicate Branches(s: Out, s1: Out, P: set<Lbl>) {
    forall l :: l in Uses(s1.body) ==> l in Uses(s.body) || l in P || l in Defs(s1.body)
  }

  ghost predicate Adds(s: Out, s1: Out, A: set<Lbl>, P: set<Lbl>) {
    && s.lbl <= s1.lbl && s.n <= s1.n
    && Defines(s, s1, A) && (forall l :: l in A ==> l in Defs(s1.body))
    && Branches(s, s1, P)
    && (HeadOk(s) ==> HeadOk(s1))
  }

  ghost predicate Old(A: set<Lbl>, n: nat) {
    forall l :: l in A ==> l.L? && l.id <= n
  }

  lemma {:induction false} AddsTrans(s: Out, s1: Out, s2: Out, A: set<Lbl>, A1: set<Lbl>, P: set<Lbl>, P1: set<Lbl>)
    requires Adds(s, s1, A, P) && Adds(s1, s2, A1, P1) && A !! A1 && Old(A, s.lbl) && Old(A1, s.lbl)
    ensures Adds(s, s2, A + A1, P + P1)
  {
    forall l
      ensures Defs(s.body)[l] <= Defs(s2.body)[l] <= Defs(s.body)[l] + (if l in A + A1 || Fresh(l, s.lbl, s2.lbl) then 1
              else 0)
    {
      assert Defs(s.body)[l] <= Defs(s1.body)[l] && Defs(s1.body)[l] <= Defs(s2.body)[l];
    }
  }

  /** Labels that were numbered and then defined count as new, and a branch to one that is defined is settled. */
  lemma {:induction false} AddsClose(s: Out, s0: Out, s1: Out, A: set<Lbl>, P: set<Lbl>, P1: set<Lbl>)
    requires s0.body == s.body && s0.head == s.head && s.lbl <= s0.lbl && s.n <= s0.n && Adds(s0, s1, A, P)
    requires forall l :: l in A ==> Fresh(l, s.lbl, s0.lbl)
    requires forall l :: l in P ==> l in P1 || l in A
    ensures Adds(s, s1, {}, P1)
  {}

  lemma {:induction false} AddsMore(s: Out, s1: Out, A: set<Lbl>, P: set<Lbl>, P1: set<Lbl>)
    requires Adds(s, s1, A, P) && P <= P1
    ensures Adds(s, s1, A, P1)
  {}

  // --- one line at a time -----------------------------------------------------------------

  lemma {:induction false} AddLine(s: Out, x: Line, s1: Out)
    requires s1.body == s.body + [x] && s1.head == s.head && s1.n >= s.n && s1.lbl == s.lbl && !x.Label?
    ensures Adds(s, s1, {}, Targets(x))
  {
    assert s1.body[..|s1.body| - 1] == s.body;
    LineLast(s1.body);
  }

  lemma {:induction false} AddLabel(s: Out, l: Lbl, s1: Out)
    requires s1.body == s.body + [Label(l)] && s1.head == s.head && s1.n >= s.n && s1.lbl == s.lbl
    ensures Adds(s, s1, {l}, {})
  {
    assert s1.body[..|s1.body| - 1] == s.body;
    LineLast(s1.body);
  }

  lemma {:induction false} AddSlot(s: Out, slot: nat, w: nat, s1: Out)
    requires s1.body == s.body && s1.head == s.head + [Alloca(slot, w)] && s.n < slot <= s1.n && s.lbl <= s1.lbl
    ensures Adds(s, s1, {}, {})
  {}

  lemma {:induction false} AddNames(s: Out, s1: Out)
    requires s1.body == s.body && s1.head == s.head && s.n <= s1.n && s.lbl <= s1.lbl
    ensures Adds(s, s1, {}, {})
  {}

  predicate Quiet(x: Line) {
    !x.Label? && Targets(x) == {}
  }

  /** Lines without labels or branches. */
  lemma {:induction false} AddLines(s: Out, xs: seq<Line>, s1: Out)
    requires s1.body == s.body + xs && s1.head == s.head && s1.n >= s.n && s1.lbl >= s.lbl
             && forall i :: 0 <= i < |xs| ==> Quiet(xs[i])
    ensures Adds(s, s1, {}, {})
    decreases |xs|
  {
    if xs == [] {
      AddNames(s, s1);
    } else {
      var k := |xs| - 1;
      var s0 := s1.(body := s.body + xs[..k]);
      AddLines(s, xs[..k], s0);
      assert s1.body == s0.body + [xs[k]];
      AddLine(s0, xs[k], s1);
      AddsTrans(s, s0, s1, {}, {}, {}, {});
    }
  }

  /** A further line. */
  lemma {:induction false} Also(s: Out, s1: Out, x: Line, s2: Out, A: set<Lbl>, P: set<Lbl>)
    requires Adds(s, s1, A, P) && Old(A, s.lbl) && !x.Label? && Targets(x) <= P
    requires s2.body == s1.body + [x] && s2.head == s1.head && s2.n >= s1.n && s2.lbl == s1.lbl
    ensures Adds(s, s2, A, P)
  {
    AddLine(s1, x, s2);
    AddsTrans(s, s1, s2, A, {}, P, Targets(x));
    assert A + {} == A && P + Targets(x) == P;
  }

  lemma {:induction false} AlsoLabel(s: Out, s1: Out, l: Lbl, s2: Out, A: set<Lbl>, P: set<Lbl>)
    requires Adds(s, s1, A, P) && Old(A + {l}, s.lbl) && l !in A
    requires s2.body == s1.body + [Label(l)] && s2.head == s1.head && s2.n >= s1.n && s2.lbl == s1.lbl
    ensures Adds(s, s2, A + {l}, P)
  {
    AddLabel(s1, l, s2);
    AddsTrans(s, s1, s2, A, {l}, P, {});
    assert P + {} == P;
  }

  lemma {:induction false} AlsoBr(s: Out, s1: Out, l: Lbl, A: set<Lbl>, P: set<Lbl>)
    requires Adds(s, s1, A, P) && Old(A, s.lbl) && l in P
    ensures Adds(s, BrTo(s1, l), A, P)
  {
    if !s1.terminated { Also(s, s1, Br(l), BrTo(s1, l), A, P); }
  }

  /** What a construct inside it adds. */
  lemma {:induction false} AlsoGrown(s: Out, s1: Out, s2: Out, A: set<Lbl>, P: set<Lbl>, P1: set<Lbl>)
    requires Adds(s, s1, A, P) && Old(A, s.lbl) && Adds(s1, s2, {}, P1) && P1 <= P
    ensures Adds(s, s2, A, P)
  {
    AddsTrans(s, s1, s2, A, {}, P, P1);
    assert A + {} == A && P + P1 == P;
  }

  /** Two parts that define labels numbered before them. */
  lemma {:induction false} AlsoPart(s: Out, s1: Out, s2: Out, A: set<Lbl>, A1: set<Lbl>, P: set<Lbl>, P1: set<Lbl>,
          A2: set<Lbl>, P2: set<Lbl>)
    requires Adds(s, s1, A, P) && Adds(s1, s2, A1, P1) && A !! A1 && Old(A, s.lbl) && Old(A1, s.lbl)
    requires A2 == A + A1 && P + P1 <= P2
    ensures Adds(s, s2, A2, P2)
  {
    AddsTrans(s, s1, s2, A, A1, P, P1);
    AddsMore(s, s2, A2, P + P1, P2);
  }

  /** A construct: its labels numbered, a first part, another construct, a last part; between them they define
      what they branch to. */
  lemma {:induction false} Encloses(s: Out, s0: Out, h: Out, s1: Out, s2: Out, A: set<Lbl>, PA: set<Lbl>, B: set<Lbl>,
          PB: set<Lbl>, P0: set<Lbl>, P: set<Lbl>)
    requires s0.body == s.body && s0.head == s.head && s.lbl <= s0.lbl && s.n <= s0.n
    requires Adds(s0, h, A, PA) && Adds(h, s1, {}, P0) && Adds(s1, s2, B, PB) && A !! B
    requires forall l :: l in A || l in B ==> Fresh(l, s.lbl, s0.lbl)
    requires PA + P0 + PB <= P + A + B
    ensures Adds(s, s2, {}, P)
  {
    AlsoPart(s0, h, s1, A, {}, PA, P0, A, PA + P0);
    AlsoPart(s0, s1, s2, A, B, PA + P0, PB, A + B, PA + P0 + PB);
    AddsClose(s, s0, s2, A + B, PA + P0 + PB, P);
  }

  /** An output with its next `k` labels numbered. */
  function Numbered(s: Out, k: nat): Out {
    s.(lbl := s.lbl + k)
  }

  // --- expressions ---------------------------------------------------------------------------

  /** Where `break` and `continue` go. */
  function LoopLabels(c: Ctx): set<Lbl> {
    if c.loops == [] then {} else var l := c.loops[|c.loops| - 1]; {l.head, l.done}
  }

  /** What lowering a construct in a scope does to the layout. */
  ghost predicate Grows(s: Out, s1: Out, c: Ctx) {
    Adds(s, s1, {}, LoopLabels(c))
  }

  lemma {:induction false} GrowsTrans(s: Out, s1: Out, s2: Out, c: Ctx)
    requires Grows(s, s1, c) && Grows(s1, s2, c)
    ensures Grows(s, s2, c)
  {
    AlsoGrown(s, s1, s2, {}, LoopLabels(c), LoopLabels(c));
  }

  lemma {:induction false} GrowsLines(s: Out, xs: seq<Line>, s1: Out, c: Ctx)
    requires s1.body == s.body + xs && s1.head == s.head && s1.n >= s.n && s1.lbl >= s.lbl
             && forall i :: 0 <= i < |xs| ==> Quiet(xs[i])
    ensures Grows(s, s1, c)
  {
    AddLines(s, xs, s1);
    AddsMore(s, s1, {}, {}, LoopLabels(c));
  }

  lemma {:induction false} GrowsSlot(s: Out, slot: nat, w: nat, s1: Out, c: Ctx)
    requires s1.body == s.body && s1.head == s.head + [Alloca(slot, w)] && s.n < slot <= s1.n && s.lbl <= s1.lbl
    ensures Grows(s, s1, c)
  {
    AddSlot(s, slot, w, s1);
    AddsMore(s, s1, {}, {}, LoopLabels(c));
  }

  lemma {:induction false} LineGrows(s: Out, x: Line, s1: Out, c: Ctx)
    requires s1.body == s.body + [x] && s1.head == s.head && s1.n >= s.n && s1.lbl >= s.lbl && Quiet(x)
    ensures Grows(s, s1, c)
  {
    GrowsLines(s, [x], s1, c);
  }

  lemma {:induction false} UnaryGrows(op: UnOp, w: nat, x: Opd, s: Out, c: Ctx)
    ensures Grows(s, UnaryTail(op, w, x, s), c)
  {
    var s1, t := UnaryTail(op, w, x, s), s.n + 1;
    if op.Not? {
      var xs := [Icmp(t + 1, PNe, w, x, Const(0)), Bin(t + 2, MXor, 1, Reg(t + 1), Const(1)), Zext(t, Reg(t + 2), 8)];
      assert s1.body == s.body + xs;
      GrowsLines(s, xs, s1, c);
    } else {
      LineGrows(s, if op.Neg? then Bin(t, MSub, w, Const(0), x) else Bin(t, MXor, w, x, Const(-1)), s1, c);
    }
  }

  lemma {:induction false} CompareGrows(op: CmpOp, ty: Ty, x: Opd, y: Opd, s: Out, c: Ctx)
    ensures Grows(s, CompareTail(op, ty, x, y, s), c)
  {
    var xs := [Icmp(s.n + 1, LowerCmp(op, Signed(ty)), Bits(ty), x, y), Zext(s.n + 2, Reg(s.n + 1), 8)];
    assert CompareTail(op, ty, x, y, s).body == s.body + xs;
    GrowsLines(s, xs, CompareTail(op, ty, x, y, s), c);
  }

  lemma {:induction false} ErrTestGrows(x: Opd, ty: Ty, s: Out, c: Ctx)
    ensures Grows(s, ErrTest(x, ty, s), c)
  {
    var xs := [Extract(s.n + 1, x, if ty.NilT? then 0 else 1, 32), Icmp(s.n + 2, PNe, 32, Reg(s.n + 1), Const(0))];
    assert ErrTest(x, ty, s).body == s.body + xs;
    GrowsLines(s, xs, ErrTest(x, ty, s), c);
  }

  lemma {:induction false} TakeGrows(x: Opd, ty: Ty, s: Out, c: Ctx)
    ensures Grows(s, TakeValue(x, ty, s).0, c)
  {
    if ty.NilT? { GrowsLines(s, [], s, c); }
    else { LineGrows(s, Extract(s.n + 1, x, 0, Bits(ty)), TakeValue(x, ty, s).0, c); }
  }

  // Pieces that define labels, and the branches to them.

  lemma {:induction false} LogicMidAdds(isOr: bool, s0: Out, x: Opd, s: Out)
    requires s0.lbl + 2 <= s.lbl
    ensures var rhs, done := L(ScRhs, s0.lbl + 1), L(ScDone, s0.lbl + 2);
            Adds(s, LogicMid(isOr, s0, x, s), {rhs}, {rhs, done})
  {
    var rhs, done := L(ScRhs, s0.lbl + 1), L(ScDone, s0.lbl + 2);
    var P := {rhs, done};
    AddNames(s, s);
    AddsMore(s, s, {}, {}, P);
    var s1 := W(s, Store(8, Const(if isOr then 1 else 0), s0.n + 1));
    Also(s, s, Store(8, Const(if isOr then 1 else 0), s0.n + 1), s1, {}, P);
    var br := if isOr then CondBr(x, done, rhs) else CondBr(x, rhs, done);
    Also(s, s1, br, End(s1, br), {}, P);
    AlsoLabel(s, End(s1, br), rhs, LogicMid(isOr, s0, x, s), {}, P);
    assert {} + {rhs} == {rhs};
  }

  lemma {:induction false} LogicTailAdds(s0: Out, y: Opd, s: Out)
    requires s0.lbl + 2 <= s.lbl
    ensures var done := L(ScDone, s0.lbl + 2); Adds(s, LogicTail(s0, y, s), {done}, {done})
  {
    var done := L(ScDone, s0.lbl + 2);
    var s1 := W(Ins1(s, Zext(s.n + 1, y, 8)), Store(8, Reg(s.n + 1), s0.n + 1));
    var s2 := Start(BrTo(s1, done), done);
    TwoLines(s, Zext(s.n + 1, y, 8), Store(8, Reg(s.n + 1), s0.n + 1), s1);
    LogicEnd(s, s1, done, Load(s2.n + 1, 8, s0.n + 1), LogicTail(s0, y, s));
  }

  lemma {:induction false} TwoLines(s: Out, x: Line, y: Line, s1: Out)
    requires s1.body == s.body + [x] + [y] && s1.head == s.head && s1.n >= s.n && s1.lbl >= s.lbl && Quiet(x)
             && Quiet(y)
    ensures Adds(s, s1, {}, {})
  {
    assert s1.body == s.body + [x, y];
    AddLines(s, [x, y], s1);
  }

  lemma {:induction false} LogicEnd(s: Out, s1: Out, done: Lbl, x: Line, s3: Out)
    requires Adds(s, s1, {}, {}) && Old({done}, s.lbl) && Quiet(x)
    requires s3 == Ins1(Start(BrTo(s1, done), done), x)
    ensures Adds(s, s3, {done}, {done})
  {
    AddsMore(s, s1, {}, {}, {done});
    AlsoBr(s, s1, done, {}, {done});
    var s2 := Start(BrTo(s1, done), done);
    AlsoLabel(s, BrTo(s1, done), done, s2, {}, {done});
    assert {} + {done} == {done};
    Also(s, s2, x, s3, {done}, {done});
  }

  lemma {:induction false} LogicGrows(isOr: bool, a: Expr, b: Expr, c: Ctx, s: Out)
    ensures Grows(s, CLogic(isOr, a, b, c, s).0, c)
    decreases Lv(c), ESize(a) + ESize(b), 4
  {
    var s0, h := Numbered(s, 2), LogicHead(s);
    var rhs, done := L(ScRhs, s.lbl + 1), L(ScDone, s.lbl + 2);
    var P := LoopLabels(c);
    var (s1, x) := CCond(a, c, h);
    var m := LogicMid(isOr, s, x, s1);
    var (s2, y) := CCond(b, c, m);
    AddSlot(s0, s.n + 1, 8, h);
    CondGrows(a, c, h);
    AddsTrans(s0, h, s1, {}, {}, {}, P);
    LogicMidAdds(isOr, s, x, s1);
    AlsoPart(s0, s1, m, {}, {rhs}, P, {rhs, done}, {rhs}, P + {rhs, done});
    CondGrows(b, c, m);
    LogicTailAdds(s, y, s2);
    Encloses(s, s0, m, s2, LogicTail(s, y, s2), {rhs}, P + {rhs, done}, {done}, {done}, P, P);
  }

  lemma {:induction false} RelayHeadAdds(x: Opd, ty: Ty, s: Out)
    ensures var err, ok := L(RelayErr, s.lbl + 1), L(RelayOk, s.lbl + 2);
            var s0 := Numbered(s, 2);
            Adds(s0, RelayHead(x, ty, s), {err}, {err, ok})
  {
    var err, ok := L(RelayErr, s.lbl + 1), L(RelayOk, s.lbl + 2);
    var s0, s1 := Numbered(s, 2), Lab(Lab(ErrTest(x, ty, s)));
    var xs := [Extract(s.n + 1, x, if ty.NilT? then 0 else 1, 32), Icmp(s.n + 2, PNe, 32, Reg(s.n + 1), Const(0))];
    assert s1.body == s.body + xs;
    AddLines(s0, xs, s1);
    AddsMore(s0, s1, {}, {}, {err, ok});
    var br := CondBr(Reg(s.n + 2), err, ok);
    Also(s0, s1, br, End(s1, br), {}, {err, ok});
    AlsoLabel(s0, End(s1, br), err, RelayHead(x, ty, s), {}, {err, ok});
    assert {} + {err} == {err};
  }

  lemma {:induction false} RelayGrows(x: Opd, ty: Ty, c: Ctx, s: Out)
    ensures Grows(s, CRelay(x, ty, c, s), c)
    decreases Lv(c), 0, 5
  {
    var h := RelayHead(x, ty, s);
    RelayPathGrows(s.n + 1, c, h);
    RelayIs(x, ty, c, s);
    RelayParts(x, ty, s, RelayPath(s.n + 1, c, h), c);
  }

  /** The error path of `relay`. */
  function RelayPath(code: nat, c: Ctx, s: Out): Out {
    if c.inDefer then s else CUnwind(c.defers, LErr(Reg(code)), c, s)
  }

  lemma {:induction false} RelayIs(x: Opd, ty: Ty, c: Ctx, s: Out)
    ensures CRelay(x, ty, c, s) == Start(RelayPath(s.n + 1, c, RelayHead(x, ty, s)), L(RelayOk, s.lbl + 2))
  {}

  lemma {:induction false} RelayPathGrows(code: nat, c: Ctx, s: Out)
    ensures Grows(s, RelayPath(code, c, s), c)
    decreases Lv(c), 0, 4
  {
    if c.inDefer {
      GrowsLines(s, [], s, c);
    } else {
      UnwindGrows(c.defers, LErr(Reg(code)), c, s);
    }
  }

  lemma {:induction false} RelayParts(x: Opd, ty: Ty, s: Out, s2: Out, c: Ctx)
    requires Grows(RelayHead(x, ty, s), s2, c)
    ensures Grows(s, Start(s2, L(RelayOk, s.lbl + 2)), c)
  {
    var err, ok := L(RelayErr, s.lbl + 1), L(RelayOk, s.lbl + 2);
    RelayHeadAdds(x, ty, s);
    AddLabel(s2, ok, Start(s2, ok));
    Encloses(s, Numbered(s, 2), RelayHead(x, ty, s), s2, Start(s2, ok), {err}, {err, ok}, {ok}, {}, LoopLabels(c),
        LoopLabels(c));
  }

  lemma {:induction false} EmphHeadAdds(x: Opd, ty: Ty, s: Out)
    ensures var err, ok := L(EmphErr, s.lbl + 1), L(EmphOk, s.lbl + 2);
            Adds(Numbered(s, 2), EmphHead(x, ty, s), {err}, {err, ok})
  {
    var err, ok := L(EmphErr, s.lbl + 1), L(EmphOk, s.lbl + 2);
    var s0, s1 := Numbered(s, 2), Lab(Lab(ErrTest(x, ty, s)));
    var xs := [Extract(s.n + 1, x, if ty.NilT? then 0 else 1, 32), Icmp(s.n + 2, PNe, 32, Reg(s.n + 1), Const(0))];
    assert s1.body == s.body + xs;
    AddLines(s0, xs, s1);
    AddsMore(s0, s1, {}, {}, {err, ok});
    var br := CondBr(Reg(s.n + 2), err, ok);
    Also(s0, s1, br, W(s1, br), {}, {err, ok});
    AlsoLabel(s0, W(s1, br), err, EmphHead(x, ty, s), {}, {err, ok});
    assert {} + {err} == {err};
  }

  lemma {:induction false} EmphTailAdds(s0: Out, y: Opd, s: Out)
    requires s0.lbl + 2 <= s.lbl
    ensures Adds(s, EmphTail(s0, y, s), {L(EmphOk, s0.lbl + 2)}, {})
  {
    var xs := [CallFailsafe(s.n + 1, y), CallExit(Reg(s.n + 1)), Unreachable];
    var s1 := W(W(Ins1(s, CallFailsafe(s.n + 1, y)), CallExit(Reg(s.n + 1))), Unreachable);
    assert s1.body == s.body + xs;
    AddLines(s, xs, s1);
    AlsoLabel(s, s1, L(EmphOk, s0.lbl + 2), EmphTail(s0, y, s), {}, {});
    assert {} + {L(EmphOk, s0.lbl + 2)} == {L(EmphOk, s0.lbl + 2)};
  }

  lemma {:induction false} EmphaticGrows(a: Expr, k: Expr, c: Ctx, s: Out)
    ensures Grows(s, CEmphatic(a, k, c, s).0, c)
    decreases Lv(c), ESize(a) + ESize(k), 4
  {
    var (s1, x) := CExpr(a, c, s);
    var t := XTyOf(a, c);
    EmphaticIs(a, k, c, s);
    ExprGrows(a, c, s);
    if t.Rs? {
      EmphRestGrows(x, t.ty, s1, k, c);
      GrowsTrans(s, s1, EmphaticRest(x, t.ty, s1, k, c).0, c);
    }
  }

  lemma {:induction false} EmphRestGrows(x: Opd, ty: Ty, s: Out, k: Expr, c: Ctx)
    ensures Grows(s, EmphaticRest(x, ty, s, k, c).0, c)
    decreases Lv(c), ESize(k), 2
  {
    var h := EmphHead(x, ty, s);
    var (s2, y) := CExpr(k, c, h);
    var s3 := EmphTail(s, y, s2);
    ExprGrows(k, c, h);
    EmphParts(x, ty, y, s, s2, c);
    TakeGrows(x, ty, s3, c);
    GrowsTrans(s, s3, TakeValue(x, ty, s3).0, c);
  }

  lemma {:induction false} EmphParts(x: Opd, ty: Ty, y: Opd, s: Out, s2: Out, c: Ctx)
    requires Ext(EmphHead(x, ty, s), s2) && Grows(EmphHead(x, ty, s), s2, c)
    ensures Grows(s, EmphTail(s, y, s2), c)
  {
    var err, ok := L(EmphErr, s.lbl + 1), L(EmphOk, s.lbl + 2);
    EmphHeadAdds(x, ty, s);
    EmphTailAdds(s, y, s2);
    Encloses(s, Numbered(s, 2), EmphHead(x, ty, s), s2, EmphTail(s, y, s2), {err}, {err, ok}, {ok}, {}, LoopLabels(c),
        LoopLabels(c));
  }

  /** The error test and a slot for the result. */
  lemma {:induction false} TestSlotAdds(x: Opd, ty: Ty, s: Out, s1: Out)
    requires s1 == Numbered(AllocaAt(Tmp(ErrTest(x, ty, s)), s.n + 3, Bits(ty)), 3)
    ensures Adds(Numbered(s, 3), s1, {}, {})
  {
    var s0, e0 := Numbered(s, 3), Numbered(ErrTest(x, ty, s), 3);
    var xs := [Extract(s.n + 1, x, if ty.NilT? then 0 else 1, 32), Icmp(s.n + 2, PNe, 32, Reg(s.n + 1), Const(0))];
    assert e0.body == s.body + xs;
    AddLines(s0, xs, e0);
    AddSlot(e0, s.n + 3, Bits(ty), s1);
    AddsTrans(s0, e0, s1, {}, {}, {}, {});
  }

  lemma {:induction false} UnwrapHeadAdds(x: Opd, ty: Ty, s: Out)
    ensures var def, ok := L(QpDef, s.lbl + 1), L(QpOk, s.lbl + 2);
            Adds(Numbered(s, 3), UnwrapHead(x, ty, s), {def}, {def, ok})
  {
    var def, ok := L(QpDef, s.lbl + 1), L(QpOk, s.lbl + 2);
    var s1 := Numbered(AllocaAt(Tmp(ErrTest(x, ty, s)), s.n + 3, Bits(ty)), 3);
    TestSlotAdds(x, ty, s, s1);
    CutTo(Numbered(s, 3), s1, CondBr(Reg(s.n + 2), def, ok), def, UnwrapHead(x, ty, s), {def, ok});
  }

  /** A branch and the label after it. */
  lemma {:induction false} CutTo(s: Out, s1: Out, br: Line, l: Lbl, s2: Out, P: set<Lbl>)
    requires Adds(s, s1, {}, {}) && !br.Label? && Targets(br) <= P && Old({l}, s.lbl)
    requires s2.body == s1.body + [br] + [Label(l)] && s2.head == s1.head && s2.n >= s1.n && s2.lbl == s1.lbl
    ensures Adds(s, s2, {l}, P)
  {
    AddsMore(s, s1, {}, {}, P);
    var m := W(s1, br);
    Also(s, s1, br, m, {}, P);
    AlsoLabel(s, m, l, s2, {}, P);
    assert {} + {l} == {l};
  }

  lemma {:induction false} UnwrapTailAdds(s0: Out, x: Opd, ty: Ty, y: Opd, s: Out)
    requires s0.lbl + 3 <= s.lbl
    ensures var ok, done := L(QpOk, s0.lbl + 2), L(QpDone, s0.lbl + 3);
            Adds(s, UnwrapTail(s0, x, ty, y, s), {ok, done}, {done})
  {
    var w, slot := Bits(ty), s0.n + 3;
    var ok, done := L(QpOk, s0.lbl + 2), L(QpDone, s0.lbl + 3);
    var s1 := W(W(W(s, Store(w, y, slot)), Br(done)), Label(ok));
    StoreGoAdds(w, y, slot, done, ok, s);
    UnwrapEndIs(s0, x, ty, y, s);
    UnwrapEndAdds(w, slot, s1.n + 1, x, done, s1, UnwrapEnd(w, slot, x, done, s1));
    AlsoPart(s, s1, UnwrapEnd(w, slot, x, done, s1), {ok}, {done}, {done}, {done}, {ok, done}, {done});
  }

  lemma {:induction false} StoreGoAdds(w: nat, y: Opd, slot: nat, done: Lbl, ok: Lbl, s: Out)
    requires Old({ok}, s.lbl)
    ensures Adds(s, W(W(W(s, Store(w, y, slot)), Br(done)), Label(ok)), {ok}, {done})
  {
    var a := W(s, Store(w, y, slot));
    AddLines(s, [Store(w, y, slot)], a);
    CutTo(s, a, Br(done), ok, W(W(a, Br(done)), Label(ok)), {done});
  }

  lemma {:induction false} UnwrapEndIs(s0: Out, x: Opd, ty: Ty, y: Opd, s: Out)
    ensures var w, slot := Bits(ty), s0.n + 3;
            var ok, done := L(QpOk, s0.lbl + 2), L(QpDone, s0.lbl + 3);
            UnwrapTail(s0, x, ty, y, s) == UnwrapEnd(w, slot, x, done,
                W(W(W(s, Store(w, y, slot)), Br(done)), Label(ok)))
  {}

  function UnwrapEnd(w: nat, slot: nat, x: Opd, done: Lbl, s: Out): (r: Out)
    ensures r.body == s.body + [Extract(s.n + 1, x, 0, w),
            Store(w, Reg(s.n + 1), slot)] + [Br(done)] + [Label(done)] + [Load(s.n + 2, w, slot)]
  {
    var s2 := Ins1(s, Extract(s.n + 1, x, 0, w));
    var s3 := W(W(W(s2, Store(w, Reg(s2.n), slot)), Br(done)), Label(done));
    Ins1(s3, Load(s3.n + 1, w, slot))
  }

  lemma {:induction false} UnwrapEndAdds(w: nat, slot: nat, t: nat, x: Opd, done: Lbl, s: Out, s4: Out)
    requires s4.body == s.body + [Extract(t, x, 0, w),
             Store(w, Reg(t), slot)] + [Br(done)] + [Label(done)] + [Load(t + 1, w, slot)]
    requires s4.head == s.head && s4.n >= s.n && s4.lbl == s.lbl && Old({done}, s.lbl)
    ensures Adds(s, s4, {done}, {done})
  {
    var xs := [Extract(t, x, 0, w), Store(w, Reg(t), slot)];
    var d := s.(body := s.body + xs);
    var s3 := W(W(d, Br(done)), Label(done));
    AddLines(s, xs, d);
    CutTo(s, d, Br(done), done, s3, {done});
    Also(s, s3, Load(t + 1, w, slot), s4, {done}, {done});
  }

  lemma {:induction false} SafeUnwrapGrows(a: Expr, d: Expr, c: Ctx, s: Out)
    ensures Grows(s, CSafeUnwrap(a, d, c, s).0, c)
    decreases Lv(c), ESize(a) + ESize(d), 4
  {
    var (s1, x) := CExpr(a, c, s);
    var t := XTyOf(a, c);
    ExprGrows(a, c, s);
    UnwrapIs(a, d, c, s);
    if t.Rs? && t.ty.NilT? {
      ErrTestGrows(x, t.ty, s1, c);
      GrowsTrans(s, s1, ErrTest(x, t.ty, s1), c);
    } else if t.Rs? {
      var h := UnwrapHead(x, t.ty, s1);
      var (s2, y) := CExpr(d, c, h);
      ExprGrows(d, c, h);
      UnwrapParts(x, t.ty, y, s1, s2, c);
      GrowsTrans(s, s1, CSafeUnwrap(a, d, c, s).0, c);
    }
  }

  lemma {:induction false} UnwrapParts(x: Opd, ty: Ty, y: Opd, s: Out, s2: Out, c: Ctx)
    requires Ext(UnwrapHead(x, ty, s), s2) && Grows(UnwrapHead(x, ty, s), s2, c)
    ensures Grows(s, UnwrapTail(s, x, ty, y, s2), c)
  {
    var def, ok, done := L(QpDef, s.lbl + 1), L(QpOk, s.lbl + 2), L(QpDone, s.lbl + 3);
    UnwrapHeadAdds(x, ty, s);
    UnwrapTailAdds(s, x, ty, y, s2);
    Encloses(s, Numbered(s, 3), UnwrapHead(x, ty, s), s2, UnwrapTail(s, x, ty, y, s2), {def}, {def, ok}, {ok, done},
        {done},
             LoopLabels(c), LoopLabels(c));
  }

  lemma {:induction false} ResultGrows(op: ResOp, a: Expr, c: Ctx, s: Out)
    ensures Grows(s, CResultOf(op, a, c, s).0, c)
    decreases Lv(c), ESize(a), 4
  {
    var (s1, x) := CExpr(a, c, s);
    var t := XTyOf(a, c);
    ExprGrows(a, c, s);
    if !op.Drop? && t.Rs? {
      var s2 := TakeValue(x, t.ty, s1).0;
      TakeGrows(x, t.ty, s1, c);
      GrowsTrans(s, s1, s2, c);
      if op.Relay? {
        RelayGrows(x, t.ty, c, s2);
        GrowsTrans(s, s2, CRelay(x, t.ty, c, s2), c);
      }
    }
  }

  lemma {:induction false} ExprGrows(e: Expr, c: Ctx, s: Out)
    ensures Grows(s, CExpr(e, c, s).0, c)
    decreases Lv(c), ESize(e), 0
  {
    match e {
      case Var(x) =>
        var l := SlotOf(c, x);
        LineGrows(s, Load(s.n + 1, Bits(l.ty), l.slot), VarTail(l, s), c);
      case Unary(op, a) =>
        var (s1, x) := CExpr(a, c, s);
        ExprGrows(a, c, s);
        UnaryGrows(op, Bits(XTyOf(a, c).ty), x, s1, c);
        GrowsTrans(s, s1, UnaryTail(op, Bits(XTyOf(a, c).ty), x, s1), c);
      case Arith(op, a, b) =>
        var (s1, x) := CExpr(a, c, s);
        var (s2, y) := CExpr(b, c, s1);
        var ty := XTyOf(a, c).ty;
        ExprGrows(a, c, s);
        ExprGrows(b, c, s1);
        GrowsTrans(s, s1, s2, c);
        LineGrows(s2, Bin(s2.n + 1, LowerOp(op, Signed(ty)), Bits(ty), x, y), ArithTail(op, ty, x, y, s2), c);
        GrowsTrans(s, s2, ArithTail(op, ty, x, y, s2), c);
      case Compare(op, a, b) =>
        var (s1, x) := CExpr(a, c, s);
        var (s2, y) := CExpr(b, c, s1);
        ExprGrows(a, c, s);
        ExprGrows(b, c, s1);
        GrowsTrans(s, s1, s2, c);
        CompareGrows(op, XTyOf(a, c).ty, x, y, s2, c);
        GrowsTrans(s, s2, CompareTail(op, XTyOf(a, c).ty, x, y, s2), c);
      case Logic(isOr, a, b) => LogicGrows(isOr, a, b, c, s);
      case Call(f, args) =>
        var (s1, xs) := CArgs(args, c, s);
        var ret := if f in c.g then ResLLOf(c.g[f].ret) else Lone;
        ArgsGrow(args, c, s);
        LineGrows(s1, CallFn(s1.n + 1, ret, f, xs), CallTail(f, ret, xs, s1), c);
        GrowsTrans(s, s1, CallTail(f, ret, xs, s1), c);
      case ResultOf(op, a) => ResultGrows(op, a, c, s);
      case Emphatic(a, k) => EmphaticGrows(a, k, c, s);
      case SafeUnwrap(a, d) => SafeUnwrapGrows(a, d, c, s);
      case _ => GrowsLines(s, [], s, c);
    }
  }

  lemma {:induction false} CondGrows(e: Expr, c: Ctx, s: Out)
    ensures Grows(s, CCond(e, c, s).0, c)
    decreases Lv(c), ESize(e), 1
  {
    var (s1, x) := CExpr(e, c, s);
    var w := Bits(XTyOf(e, c).ty);
    ExprGrows(e, c, s);
    LineGrows(s1, Icmp(s1.n + 1, PNe, w, x, Const(0)), CondTail(w, x, s1), c);
    GrowsTrans(s, s1, CondTail(w, x, s1), c);
  }

  lemma {:induction false} ArgsGrow(args: seq<Expr>, c: Ctx, s: Out)
    ensures Grows(s, CArgs(args, c, s).0, c)
    decreases Lv(c), ESizes(args), 0
  {
    if args == [] {
      GrowsLines(s, [], s, c);
    } else {
      var (s1, x) := CExpr(args[0], c, s);
      ExprGrows(args[0], c, s);
      ArgsGrow(args[1..], c, s1);
      GrowsTrans(s, s1, CArgs(args[1..], c, s1).0, c);
    }
  }

  // --- leaving -------------------------------------------------------------------------------------

  lemma {:induction false} UnwindGrows(frames: seq<seq<seq<Stmt>>>, m: Leave, c: Ctx, s: Out)
    ensures Grows(s, CUnwind(frames, m, c, s), c)
    decreases Lv(c), LSize(m), 3, |frames|
  {
    if c.inDefer {
      GrowsLines(s, [], s, c);
    } else if frames == [] {
      LeaveGrows(m, c, s);
    } else {
      var k, cd := |frames| - 1, c.(inDefer := true);
      var s1 := CDefers(frames[k], cd, s);
      DefersGrow(frames[k], cd, s);
      UnwindGrows(frames[..k], m, c, s1);
      GrowsTrans(s, s1, CUnwind(frames[..k], m, c, s1), c);
    }
  }

  lemma {:induction false} RetPairGrows(v: Opd, code: Opd, ty: Ty, s: Out, c: Ctx)
    ensures Grows(s, RetPair(v, code, ty, s), c)
  {
    var a := s.n + 1;
    var xs := [Insert(a, None, Bits(ty), v, 0), Insert(a + 1, Some(Reg(a)), 32, code, 1), RetAgg(Reg(a + 1))];
    assert RetPair(v, code, ty, s).body == s.body + xs;
    GrowsLines(s, xs, RetPair(v, code, ty, s), c);
  }

  lemma {:induction false} RetErrGrows(x: Opd, c: Ctx, s: Out)
    ensures Grows(s, RetErr(x, c, s), c)
  {
    if c.fn.bare {
      LineGrows(s, RetWord(Bits(c.fn.ret), x), RetErr(x, c, s), c);
    } else if c.fn.ret.NilT? {
      var xs := [Insert(s.n + 1, None, 32, x, 0), RetAgg(Reg(s.n + 1))];
      assert RetErr(x, c, s).body == s.body + xs;
      GrowsLines(s, xs, RetErr(x, c, s), c);
    } else {
      RetPairGrows(Const(0), x, c.fn.ret, s, c);
    }
  }

  lemma {:induction false} LeaveGrows(m: Leave, c: Ctx, s: Out)
    ensures Grows(s, CLeave(m, c, s), c)
    decreases Lv(c), LSize(m), 2
  {
    var n := Bits(c.fn.ret);
    match m {
      case LOk(None) => LineGrows(s, if c.fn.bare then RetWord(n, Const(0)) else RetLone, CLeave(m, c, s), c);
      case LOk(Some(e)) => ValueGrows(e, m, c, s);
      case LFail(e) =>
        var (s1, x) := CExpr(e, c, s);
        ExprGrows(e, c, s);
        RetErrGrows(x, c, s1);
        GrowsTrans(s, s1, RetErr(x, c, s1), c);
      case LExit(e) =>
        var (s1, x) := CExpr(e, c, s);
        ExprGrows(e, c, s);
        LineGrows(s1, RetWord(n, x), End(s1, RetWord(n, x)), c);
        GrowsTrans(s, s1, End(s1, RetWord(n, x)), c);
      case LErr(x) => RetErrGrows(x, c, s);
    }
  }

  lemma {:induction false} ValueGrows(e: Expr, m: Leave, c: Ctx, s: Out)
    requires m == LOk(Some(e))
    ensures Grows(s, CLeave(m, c, s), c)
    decreases Lv(c), ESize(e), 1
  {
    if !c.fn.bare && c.fn.ret.NilT? && e.NilLit? {
      LineGrows(s, RetLone, End(s, RetLone), c);
    } else {
      var (s1, x) := CExpr(e, c, s);
      ExprGrows(e, c, s);
      if c.fn.bare {
        LineGrows(s1, RetWord(Bits(c.fn.ret), x), End(s1, RetWord(Bits(c.fn.ret), x)), c);
      } else if !c.fn.ret.NilT? {
        RetPairGrows(x, Const(0), c.fn.ret, s1, c);
      } else if s1.terminated {
        GrowsLines(s1, [], s1, c);
      } else {
        LineGrows(s1, RetLone, End(s1, RetLone), c);
      }
      GrowsTrans(s, s1, CLeave(m, c, s), c);
    }
  }

  // --- statements --------------------------------------------------------------------------------------

  lemma {:induction false} DefersGrow(frame: seq<seq<Stmt>>, c: Ctx, s: Out)
    ensures Grows(s, CDefers(frame, c, s), c)
    decreases Lv(c), FSize(frame), 0
  {
    if frame == [] {
      GrowsLines(s, [], s, c);
    } else {
      var k := |frame| - 1;
      var s1 := CBlock(frame[k], c, s);
      BlockGrows(frame[k], c, s);
      DefersGrow(frame[..k], c, s1);
      GrowsTrans(s, s1, CDefers(frame[..k], c, s1), c);
    }
  }

  lemma {:induction false} BlockGrows(ss: seq<Stmt>, c: Ctx, s: Out)
    ensures Grows(s, CBlock(ss, c, s), c)
    decreases Lv(c), BSize(ss) + 1, 0
  {
    var (s1, c1) := CStmts(ss, c.(defers := c.defers + [[]]), s);
    StmtsGrow(ss, c.(defers := c.defers + [[]]), s);
    if !s1.terminated {
      var cd := c1.(defers := c.defers, inDefer := true);
      DefersSize(ss);
      DefersGrow(DefersOf(ss), cd, s1);
      GrowsTrans(s, s1, CDefers(DefersOf(ss), cd, s1), c);
    }
  }

  lemma {:induction false} StmtsGrow(ss: seq<Stmt>, c: Ctx, s: Out)
    ensures var (s1, c1) := CStmts(ss, c, s); Grows(s, s1, c) && c1.loops == c.loops && c1.inDefer == c.inDefer
    decreases Lv(c), BSize(ss), 5
  {
    if ss == [] || s.terminated {
      GrowsLines(s, [], s, c);
    } else {
      var s1, c1 := CStmt(ss[0], c, s), After(ss[0], c, s);
      StmtGrows(ss[0], c, s);
      StmtsGrow(ss[1..], c1, s1);
      GrowsTrans(s, s1, CStmts(ss[1..], c1, s1).0, c);
    }
  }

  lemma {:induction false} DeclGrows(ty: Ty, e: Expr, c: Ctx, s: Out)
    ensures var s0 := AllocaAt(Tmp(s), s.n + 1, Bits(ty)); var (s1, v) := CExpr(e, c, s0);
            Grows(s, W(s1, Store(Bits(ty), v, s.n + 1)), c)
    decreases Lv(c), ESize(e), 2
  {
    var s0 := AllocaAt(Tmp(s), s.n + 1, Bits(ty));
    var (s1, v) := CExpr(e, c, s0);
    GrowsSlot(s, s.n + 1, Bits(ty), s0, c);
    ExprGrows(e, c, s0);
    GrowsTrans(s, s0, s1, c);
    LineGrows(s1, Store(Bits(ty), v, s.n + 1), W(s1, Store(Bits(ty), v, s.n + 1)), c);
    GrowsTrans(s, s1, W(s1, Store(Bits(ty), v, s.n + 1)), c);
  }

  lemma {:induction false} AssignGrows(l: Local, op: Option<BinOp>, e: Expr, c: Ctx, s: Out)
    ensures var (s1, v) := CExpr(e, c, if op.None? then s else VarTail(l, s));
            Grows(s, AssignTail(l, op, s.n + 1, v, s1), c)
    decreases Lv(c), ESize(e), 2
  {
    var s0 := if op.None? then s else VarTail(l, s);
    var (s1, v) := CExpr(e, c, s0);
    if op.None? { GrowsLines(s, [], s0, c); } else { LineGrows(s, Load(s.n + 1, Bits(l.ty), l.slot), s0, c); }
    ExprGrows(e, c, s0);
    GrowsTrans(s, s0, s1, c);
    var s2 := AssignTail(l, op, s.n + 1, v, s1);
    if op.None? {
      LineGrows(s1, Store(Bits(l.ty), v, l.slot), s2, c);
    } else {
      var xs := [Bin(s1.n + 1, LowerOp(op.value, Signed(l.ty)), Bits(l.ty), Reg(s.n + 1), v),
          Store(Bits(l.ty), Reg(s1.n + 1), l.slot)];
      assert s2.body == s1.body + xs;
      GrowsLines(s1, xs, s2, c);
    }
    GrowsTrans(s, s1, s2, c);
  }

  lemma {:induction false} TrapGrows(v: Opd, s: Out, c: Ctx)
    ensures Grows(s, TrapTail(v, s), c)
  {
    var xs := [CallFailsafe(s.n + 1, v), CallExit(Reg(s.n + 1)), Unreachable];
    assert TrapTail(v, s).body == s.body + xs;
    GrowsLines(s, xs, TrapTail(v, s), c);
  }

  lemma {:induction false} JumpGrows(l: Lbl, s: Out, c: Ctx)
    requires l in LoopLabels(c)
    ensures Grows(s, BrTo(s, l), c)
  {
    AddNames(s, s);
    AddsMore(s, s, {}, {}, LoopLabels(c));
    AlsoBr(s, s, l, {}, LoopLabels(c));
  }

  lemma {:induction false} StmtGrows(st: Stmt, c: Ctx, s: Out)
    ensures Grows(s, CStmt(st, c, s), c)
    decreases Lv(c), SSize(st), 4
  {
    match st {
      case Block(b) => BlockGrows(b, c, s);
      case VarDecl(x, ty, e) => DeclGrows(ty, e, c, s);
      case Assign(x, op, e) => AssignGrows(SlotOf(c, x), op, e, c, s);
      case ExprStmt(e) => ExprGrows(e, c, s);
      case If(e, t, els) => IfGrows(e, t, els, c, s);
      case While(e, b) => WhileGrows(e, b, c, s);
      case Pick(e, arms) => PickGrows(e, arms, c, s);
      case Pass(r) => UnwindGrows(c.defers, LOk(r), c, s);
      case Fail(e) => UnwindGrows(c.defers, LFail(e), c, s);
      case Exit(e) => UnwindGrows(c.defers, LExit(e), c, s);
      case Trap(e) => TrapStmtGrows(e, c, s);
      case Break => LoopJumpGrows(st, c, s);
      case Continue => LoopJumpGrows(st, c, s);
      case Defer(_) => GrowsLines(s, [], s, c);
    }
  }

  lemma {:induction false} TrapStmtGrows(e: Expr, c: Ctx, s: Out)
    ensures Grows(s, CStmt(Trap(e), c, s), c)
    decreases Lv(c), ESize(e), 4
  {
    var (s1, v) := CExpr(e, c, s);
    ExprGrows(e, c, s);
    TrapGrows(v, s1, c);
    GrowsTrans(s, s1, TrapTail(v, s1), c);
  }

  lemma {:induction false} LoopJumpGrows(st: Stmt, c: Ctx, s: Out)
    requires st.Break? || st.Continue?
    ensures Grows(s, CStmt(st, c, s), c)
  {
    if c.loops == [] {
      GrowsLines(s, [], s, c);
    } else {
      var l := c.loops[|c.loops| - 1];
      JumpGrows(if st.Break? then l.done else l.head, s, c);
    }
  }

  lemma {:induction false} IfTestAdds(s0: Out, hasElse: bool, v: Opd, s: Out)
    requires IfLabels(s0, hasElse).lbl <= s.lbl
    ensures Adds(s, IfTest(s0, hasElse, v, s), {IfThen(s0)}, {IfThen(s0), IfElse(s0, hasElse)})
  {
    AddNames(s, s);
    CutTo(s, s, CondBr(v, IfThen(s0), IfElse(s0, hasElse)), IfThen(s0), IfTest(s0, hasElse, v, s),
        {IfThen(s0), IfElse(s0, hasElse)});
  }

  /** A block's end: the jump to a label, and then another label. */
  lemma {:induction false} JoinAdds(s: Out, to: Lbl, l: Lbl)
    requires Old({l}, s.lbl)
    ensures Adds(s, Start(BrTo(s, to), l), {l}, {to})
  {
    AddNames(s, s);
    AddsMore(s, s, {}, {}, {to});
    AlsoBr(s, s, to, {}, {to});
    AlsoLabel(s, BrTo(s, to), l, Start(BrTo(s, to), l), {}, {to});
    assert {} + {l} == {l};
  }

  lemma {:induction false} ElseGrows(els: Stmt, c: Ctx, s0: Out, b: Out)
    requires s0.lbl + 3 <= b.lbl
    ensures var done, el := IfDone(s0), IfElse(s0, true);
            Adds(b, Start(BrTo(CStmt(els, c, Start(BrTo(b, done), el)), done), done), {el, done},
                LoopLabels(c) + {done})
    decreases Lv(c), SSize(els), 5
  {
    var done, el, P := IfDone(s0), IfElse(s0, true), LoopLabels(c);
    var e0 := Start(BrTo(b, done), el);
    var eb := CStmt(els, c, e0);
    JoinAdds(b, done, el);
    StmtGrows(els, c, e0);
    AlsoPart(b, e0, eb, {el}, {}, {done}, P, {el}, P + {done});
    JoinAdds(eb, done, done);
    AlsoPart(b, eb, Start(BrTo(eb, done), done), {el}, {done}, P + {done}, {done}, {el, done}, P + {done});
  }

  lemma {:induction false} IfGrows(e: Expr, t: seq<Stmt>, els: Option<Stmt>, c: Ctx, s: Out)
    ensures Grows(s, CIf(e, t, els, c, s), c)
    decreases Lv(c), ESize(e) + BSize(t) + (if els.Some? then SSize(els.value) else 0), 6
  {
    var s0 := IfLabels(s, els.Some?);
    var (s1, v) := CCond(e, c, s0);
    var h := IfTest(s, els.Some?, v, s1);
    var b := CBlock(t, c, h);
    CondGrows(e, c, s0);
    BlockGrows(t, c, h);
    IfFront(els.Some?, v, s, s1, c);
    if els.None? {
      IfJoins(v, s, s1, b, c);
    } else {
      ElseGrows(els.value, c, s, b);
      ElseJoins(v, s, s1, b, CIf(e, t, els, c, s), c);
    }
  }

  lemma {:induction false} IfFront(hasElse: bool, v: Opd, s: Out, s1: Out, c: Ctx)
    requires Grows(IfLabels(s, hasElse), s1, c)
    ensures var th, el := IfThen(s), IfElse(s, hasElse);
            Adds(IfLabels(s, hasElse), IfTest(s, hasElse, v, s1), {th}, LoopLabels(c) + {th, el})
  {
    var th, el, P := IfThen(s), IfElse(s, hasElse), LoopLabels(c);
    IfTestAdds(s, hasElse, v, s1);
    AlsoPart(IfLabels(s, hasElse), s1, IfTest(s, hasElse, v, s1), {}, {th}, P, {th, el}, {th}, P + {th, el});
  }

  lemma {:induction false} IfJoins(v: Opd, s: Out, s1: Out, b: Out, c: Ctx)
    requires var s0, th, done, h := IfLabels(s, false), IfThen(s), IfDone(s), IfTest(s, false, v, s1);
             Adds(s0, h, {th}, LoopLabels(c) + {th, done}) && Grows(h, b, c)
    ensures Grows(s, Start(BrTo(b, IfDone(s)), IfDone(s)), c)
  {
    var s0, th, done, P := IfLabels(s, false), IfThen(s), IfDone(s), LoopLabels(c);
    JoinAdds(b, done, done);
    Encloses(s, s0, IfTest(s, false, v, s1), b, Start(BrTo(b, done), done), {th}, P + {th, done}, {done}, {done}, P, P);
  }

  lemma {:induction false} ElseJoins(v: Opd, s: Out, s1: Out, b: Out, r: Out, c: Ctx)
    requires var s0, th, el, done, h := IfLabels(s, true), IfThen(s), IfElse(s, true), IfDone(s),
             IfTest(s, true, v, s1);
             Adds(s0, h, {th}, LoopLabels(c) + {th, el}) && Grows(h, b, c)
                 && Adds(b, r, {el, done}, LoopLabels(c) + {done})
    ensures Grows(s, r, c)
  {
    var s0, th, el, done, P := IfLabels(s, true), IfThen(s), IfElse(s, true), IfDone(s), LoopLabels(c);
    Encloses(s, s0, IfTest(s, true, v, s1), b, r, {th}, P + {th, el}, {el, done}, P + {done}, P, P);
  }

  lemma {:induction false} WhileGrows(e: Expr, b: seq<Stmt>, c: Ctx, s: Out)
    ensures Grows(s, CWhile(e, b, c, s), c)
    decreases Lv(c), ESize(e) + BSize(b), 5
  {
    var ci := c.(loops := c.loops + [Loop(WhHead(s), WhDone(s))]);
    var h := WhStart(s);
    var (s1, v) := CCond(e, c, h);
    var b0 := WhTest(s, v, s1);
    CondGrows(e, c, h);
    BlockGrows(b, ci, b0);
    WhileParts(v, s, s1, CBlock(b, ci, b0), c);
  }

  lemma {:induction false} WhileParts(v: Opd, s: Out, s1: Out, s2: Out, c: Ctx)
    requires Grows(WhStart(s), s1, c) && Adds(WhTest(s, v, s1), s2, {}, {WhHead(s), WhDone(s)})
    ensures Grows(s, Start(BrTo(s2, WhHead(s)), WhDone(s)), c)
  {
    var s0, hd, bd, done, P := Numbered(s, 3), WhHead(s), WhBody(s), WhDone(s), LoopLabels(c);
    var b0 := WhTest(s, v, s1);
    WhileFront(v, s, s1, c);
    JoinAdds(s2, hd, done);
    Encloses(s, s0, b0, s2, Start(BrTo(s2, hd), done), {hd, bd}, P + {hd, bd, done}, {done}, {hd}, {hd, done}, P);
  }

  lemma {:induction false} WhileFront(v: Opd, s: Out, s1: Out, c: Ctx)
    requires Grows(WhStart(s), s1, c)
    ensures Adds(Numbered(s, 3), WhTest(s, v, s1), {WhHead(s), WhBody(s)},
            LoopLabels(c) + {WhHead(s), WhBody(s), WhDone(s)})
  {
    var s0, hd, bd, done, P := Numbered(s, 3), WhHead(s), WhBody(s), WhDone(s), LoopLabels(c);
    JoinAdds(s0, hd, hd);
    AlsoPart(s0, WhStart(s), s1, {hd}, {}, {hd}, P, {hd}, P + {hd});
    WhTestAdds(s, v, s1);
    AlsoPart(s0, s1, WhTest(s, v, s1), {hd}, {bd}, P + {hd}, {bd, done}, {hd, bd}, P + {hd, bd, done});
  }

  lemma {:induction false} WhTestAdds(s0: Out, v: Opd, s: Out)
    requires s0.lbl + 3 <= s.lbl
    ensures Adds(s, WhTest(s0, v, s), {WhBody(s0)}, {WhBody(s0), WhDone(s0)})
  {
    AddNames(s, s);
    CutTo(s, s, CondBr(v, WhBody(s0), WhDone(s0)), WhBody(s0), WhTest(s0, v, s), {WhBody(s0), WhDone(s0)});
  }

  // `pick`: the literal arms' labels are defined in order, then the last wildcard's.

  function LitLabels(arms: seq<Arm>, first: nat): set<Lbl> {
    if arms == [] then {}
    else (if arms[0].pat.Some? then {ArmLabel(first, 0)} else {}) + LitLabels(arms[1..], first + 1)
  }

  lemma {:induction false} LitIs(arms: seq<Arm>, first: nat, l: Lbl)
    ensures l in LitLabels(arms, first) <==>
              l.L? && l.stem == PickArm && first <= l.id < first + |arms| && arms[l.id - first].pat.Some?
  {
    if arms != [] { LitIs(arms[1..], first + 1, l); }
  }

  lemma {:induction false} LitAll(arms: seq<Arm>, first: nat)
    ensures forall l :: l in LitLabels(arms, first) <==>
              l.L? && l.stem == PickArm && first <= l.id < first + |arms| && arms[l.id - first].pat.Some?
  {
    forall l ensures l in LitLabels(arms, first) <==>
              l.L? && l.stem == PickArm && first <= l.id < first + |arms| && arms[l.id - first].pat.Some? {
      LitIs(arms, first, l);
    }
  }

  lemma {:induction false} CasesAre(arms: seq<Arm>, first: nat)
    ensures CaseLabels(CasesOf(arms, first)) == LitLabels(arms, first)
  {
    if arms != [] {
      CasesAre(arms[1..], first + 1);
      var cs, rest := CasesOf(arms, first), CasesOf(arms[1..], first + 1);
      if arms[0].pat.Some? {
        assert forall i :: 0 <= i < |rest| ==> cs[i + 1] == rest[i];
        assert cs[0].1 == ArmLabel(first, 0);
        forall l | l in CaseLabels(rest) ensures l in CaseLabels(cs) {
          var i :| 0 <= i < |rest| && rest[i].1 == l;
          assert cs[i + 1].1 == l;
        }
      } else {
        assert cs == rest;
      }
    }
  }

  /** The labels of the literal arms from `i` on. */
  function LitLabelsAt(arms: seq<Arm>, i: nat, first: nat): set<Lbl>
    requires i <= |arms|
    decreases |arms| - i
  {
    if i == |arms| then {}
    else (if arms[i].pat.Some? then {ArmLabel(first, i)} else {}) + LitLabelsAt(arms, i + 1, first)
  }

  lemma {:induction false} LitLabelsIs(arms: seq<Arm>, i: nat, first: nat)
    requires i <= |arms|
    ensures LitLabelsAt(arms, i, first) == LitLabels(arms[i..], first + i)
    decreases |arms| - i
  {
    if i < |arms| {
      assert arms[i..][1..] == arms[i + 1..];
      LitLabelsIs(arms, i + 1, first);
    }
  }

  lemma {:induction false} ArmAdds(b: seq<Stmt>, l: Lbl, done: Lbl, c: Ctx, s: Out, P: set<Lbl>)
    requires l.L? && l.id <= s.lbl && P == LoopLabels(c) + {done}
    ensures Adds(s, CArm(b, l, done, c, s), {l}, P) && s.lbl <= CArm(b, l, done, c, s).lbl
    decreases Lv(c), BSize(b) + 1, 1
  {
    var s0 := Start(s, l);
    var s1 := CBlock(b, c, s0);
    AddLabel(s, l, s0);
    AddsMore(s, s0, {l}, {}, P);
    BlockGrows(b, c, s0);
    AlsoGrown(s, s0, s1, {l}, P, LoopLabels(c));
    AlsoBr(s, s1, done, {l}, P);
  }

  lemma {:induction false} ArmsAdd(arms: seq<Arm>, i: nat, first: nat, done: Lbl, c: Ctx, s: Out, P: set<Lbl>)
    requires i <= |arms| && first + |arms| <= s.lbl + 1 && P == LoopLabels(c) + {done}
    ensures Adds(s, CArms(arms, i, first, done, c, s), LitLabelsAt(arms, i, first), P)
    decreases Lv(c), ASize(arms), 3, |arms| - i
  {
    if i == |arms| {
      AddNames(s, s);
      AddsMore(s, s, {}, {}, P);
    } else {
      LitNext(arms, i, first, s.lbl);
      if arms[i].pat.None? {
        ArmsAdd(arms, i + 1, first, done, c, s, P);
      } else {
        var l := ArmLabel(first, i);
        var s1 := CArm(ArmAt(arms, i), l, done, c, s);
        ArmAdds(ArmAt(arms, i), l, done, c, s, P);
        ArmsAdd(arms, i + 1, first, done, c, s1, P);
        ArmsStep(s, s1, CArms(arms, i + 1, first, done, c, s1), l, LitLabelsAt(arms, i + 1, first), P);
      }
    }
  }

  lemma {:induction false} LitNext(arms: seq<Arm>, i: nat, first: nat, n: nat)
    requires i < |arms| && first + |arms| <= n + 1
    ensures var l, rest := ArmLabel(first, i), LitLabelsAt(arms, i + 1, first);
            LitLabelsAt(arms, i, first) == (if arms[i].pat.Some? then {l} + rest else rest)
            && l !in rest && Old({l}, n) && Old(rest, n)
  {
    LitLabelsIs(arms, i + 1, first);
    LitAll(arms[i + 1..], first + i + 1);
  }

  lemma {:induction false} ArmsStep(s: Out, s1: Out, s2: Out, l: Lbl, rest: set<Lbl>, P: set<Lbl>)
    requires Adds(s, s1, {l}, P) && Adds(s1, s2, rest, P) && l !in rest && Old({l}, s.lbl) && Old(rest, s.lbl)
    ensures Adds(s, s2, {l} + rest, P)
  {
    AddsTrans(s, s1, s2, {l}, rest, P, P);
    assert P + P == P;
  }

  lemma {:induction false} SwitchAdds(w: nat, v: Opd, arms: seq<Arm>, s: Out, P: set<Lbl>)
    requires LitLabels(arms, s.lbl + 2) <= P && PickDone(s) in P
    requires var wild := WildArm(arms); wild.Some? ==> ArmLabel(s.lbl + 2, wild.value) in P
    ensures Adds(Numbered(s, 1 + |arms|), PickSwitch(w, v, arms, s), {}, P)
  {
    var wild, s0 := WildArm(arms), Numbered(s, 1 + |arms|);
    var dflt := if wild.Some? then ArmLabel(s.lbl + 2, wild.value) else PickDone(s);
    CasesAre(arms, s.lbl + 2);
    AddNames(s0, s0);
    AddsMore(s0, s0, {}, {}, P);
    Also(s0, s0, Switch(w, v, dflt, CasesOf(arms, s.lbl + 2)), PickSwitch(w, v, arms, s), {}, P);
  }

  lemma {:induction false} PickGrows(e: Expr, arms: seq<Arm>, c: Ctx, s: Out)
    ensures Grows(s, CPick(e, arms, c, s), c)
    decreases Lv(c), ESize(e) + ASize(arms), 5
  {
    var (s1, v) := CExpr(e, c, s);
    var w := Bits(XTyOf(e, c).ty);
    ExprGrows(e, c, s);
    PickTail(w, v, arms, c, s1);
    PickIs(e, arms, c, s);
    GrowsTrans(s, s1, PickRest(w, v, arms, c, s1), c);
  }

  lemma {:induction false} WildNew(arms: seq<Arm>, first: nat, n: nat)
    requires WildArm(arms).Some? && first + |arms| <= n + 1
    ensures var lits, l := LitLabels(arms, first), ArmLabel(first, WildArm(arms).value);
            lits !! {l} && Old(lits, n) && Old({l}, n)
  {
    LitAll(arms, first);
  }

  lemma {:induction false} PickTail(w: nat, v: Opd, arms: seq<Arm>, c: Ctx, s1: Out)
    ensures Grows(s1, PickRest(w, v, arms, c, s1), c)
    decreases Lv(c), ASize(arms), 5
  {
    var sw, first, done := PickSwitch(w, v, arms, s1), s1.lbl + 2, PickDone(s1);
    var s3 := ArmsOut(arms, first, done, c, sw);
    assert PickRest(w, v, arms, c, s1) == Start(s3, done);
    ArmsOutAdd(arms, first, done, c, sw);
    PickParts(w, v, arms, s1, s3, c);
  }

  function ArmsLabels(arms: seq<Arm>, first: nat): set<Lbl> {
    var wild := WildArm(arms);
    LitLabels(arms, first) + if wild.Some? then {ArmLabel(first, wild.value)} else {}
  }

  lemma {:induction false} ArmsOutAdd(arms: seq<Arm>, first: nat, done: Lbl, c: Ctx, s: Out)
    requires first + |arms| <= s.lbl + 1
    ensures Adds(s, ArmsOut(arms, first, done, c, s), ArmsLabels(arms, first), LoopLabels(c) + {done})
    decreases Lv(c), ASize(arms), 4
  {
    var wild, P, lits := WildArm(arms), LoopLabels(c) + {done}, LitLabels(arms, first);
    var s1 := CArms(arms, 0, first, done, c, s);
    LitLabelsIs(arms, 0, first);
    assert arms[0..] == arms;
    ArmsAdd(arms, 0, first, done, c, s, P);
    if wild.Some? {
      var l := ArmLabel(first, wild.value);
      WildNew(arms, first, s.lbl);
      ArmAdds(ArmAt(arms, wild.value), l, done, c, s1, P);
      AlsoPart(s, s1, CArm(ArmAt(arms, wild.value), l, done, c, s1), lits, {l}, P, P, lits + {l}, P);
    } else {
      assert lits + {} == lits;
    }
  }

  lemma {:induction false} PickParts(w: nat, v: Opd, arms: seq<Arm>, s1: Out, s3: Out, c: Ctx)
    requires Adds(PickSwitch(w, v, arms, s1), s3, ArmsLabels(arms, s1.lbl + 2), LoopLabels(c) + {PickDone(s1)})
    ensures Grows(s1, Start(s3, PickDone(s1)), c)
  {
    var s0, A, done := Numbered(s1, 1 + |arms|), ArmsLabels(arms, s1.lbl + 2), PickDone(s1);
    ArmsLabelsAre(arms, s1.lbl + 2);
    SwitchAdds(w, v, arms, s1, A + {done});
    PickSum(s1, s0, PickSwitch(w, v, arms, s1), s3, A, done, LoopLabels(c));
  }

  lemma {:induction false} ArmsLabelsAre(arms: seq<Arm>, first: nat)
    ensures forall l :: l in ArmsLabels(arms, first) ==> l.L? && l.stem == PickArm && first <= l.id < first + |arms|
  {
    LitAll(arms, first);
  }

  lemma {:induction false} PickSum(s1: Out, s0: Out, sw: Out, s3: Out, A: set<Lbl>, done: Lbl, P: set<Lbl>)
    requires s0 == s1.(lbl := s0.lbl) && s1.lbl <= s0.lbl && done.L? && s1.lbl < done.id <= s0.lbl && done !in A
    requires forall l :: l in A ==> l.L? && s1.lbl < l.id <= s0.lbl
    requires Adds(s0, sw, {}, A + {done}) && Adds(sw, s3, A, P + {done})
    ensures Adds(s1, Start(s3, done), {}, P)
  {
    AlsoPart(s0, sw, s3, {}, A, A + {done}, P + {done}, A, P + {done} + A);
    AddLabel(s3, done, Start(s3, done));
    AlsoPart(s0, s3, Start(s3, done), A, {done}, P + {done} + A, {}, A + {done}, P + {done} + A);
    AddsClose(s1, s0, Start(s3, done), A + {done}, P + {done} + A, P);
  }

  // --- a function ---------------------------------------------------------------------------------------------

  lemma {:induction false} ParamsGrow(params: seq<Source.Param>, i: nat, c: Ctx, s: Out)
    requires i <= |params|
    ensures var (s1, c1) := CParams(params, i, c, s); Grows(s, s1, c) && c1.loops == c.loops
    decreases |params| - i
  {
    if i == |params| {
      GrowsLines(s, [], s, c);
    } else {
      var slot, ty := s.n + 1, params[i].ty;
      var s0 := AllocaAt(Tmp(s), slot, Bits(ty));
      var s1, c1 := W(s0, Store(Bits(ty), Target.Param(i), slot)),
          c.(locals := c.locals[params[i].name := Local(slot, ty)]);
      GrowsSlot(s, slot, Bits(ty), s0, c);
      LineGrows(s0, Store(Bits(ty), Target.Param(i), slot), s1, c);
      GrowsTrans(s, s0, s1, c);
      ParamsGrow(params, i + 1, c1, s1);
      GrowsTrans(s, s1, CParams(params, i + 1, c1, s1).0, c);
    }
  }

  function Start0(lbl: nat): Out {
    Out([], [], 0, lbl, false)
  }

  function Ctx0(f: Func, g: Sigs): Ctx {
    Ctx(map[], [[]], [], g, f, false)
  }

  lemma {:induction false} FuncGrows(f: Func, g: Sigs, lbl: nat)
    ensures Adds(Start0(lbl), CFunc(f, g, lbl), {}, {})
  {
    var c, s := Ctx0(f, g), Start0(lbl);
    var (s1, c1) := CParams(f.params, 0, c, s);
    ParamsGrow(f.params, 0, c, s);
    var s2 := CBlock(f.body, c1, s1);
    BlockGrows(f.body, c1, s1);
    GrowsTrans(s, s1, s2, c);
    if !s2.terminated {
      var x := if f.bare then RetWord(Bits(f.ret), Const(0)) else RetZero(ResLLOf(f.ret));
      LineGrows(s2, x, CFunc(f, g, lbl), c);
      GrowsTrans(s, s2, CFunc(f, g, lbl), c);
    }
  }

  // --- the text ----------------------------------------------------------------------------------------------

  lemma {:induction false} DefsAdd(xs: seq<Line>, ys: seq<Line>)
    ensures Defs(xs + ys) == Defs(xs) + Defs(ys) && Uses(xs + ys) == Uses(xs) + Uses(ys)
    decreases |ys|
  {
    if ys == [] {
      assert xs + ys == xs;
    } else {
      var k := |ys| - 1;
      DefsAdd(xs, ys[..k]);
      assert (xs + ys)[..|xs + ys| - 1] == xs + ys[..k];
      LineLast(xs + ys);
      LineLast(ys);
    }
  }

  lemma {:induction false} DefsPlain(xs: seq<Line>)
    requires forall i :: 0 <= i < |xs| ==> Quiet(xs[i])
    ensures Defs(xs) == multiset{} && Uses(xs) == {}
    decreases |xs|
  {
    if xs != [] {
      DefsPlain(xs[..|xs| - 1]);
      LineLast(xs);
    }
  }

  /** A label defined once is found where it is. */
  lemma {:induction false} OnceFound(xs: seq<Line>, i: nat)
    requires LabelAt(xs, i) && Defs(xs)[xs[i].l] == 1
    ensures FindLabel(xs, xs[i].l) == Some(i)
    decreases |xs|
  {
    var l := xs[i].l;
    DefsAdd(xs[..1], xs[1..]);
    assert xs == xs[..1] + xs[1..];
    assert Defs(xs[..1]) == if xs[0].Label? then multiset{xs[0].l} else multiset{} by { LineLast(xs[..1]); }
    if i == 0 {
    } else {
      DefsHas(xs[1..], i - 1);
      assert xs[0] != Label(l);
      OnceFound(xs[1..], i - 1);
    }
  }

  lemma {:induction false} DefsHas(xs: seq<Line>, i: nat)
    requires LabelAt(xs, i)
    ensures Defs(xs)[xs[i].l] >= 1
    decreases |xs|
  {
    LineLast(xs);
    if i < |xs| - 1 { DefsHas(xs[..|xs| - 1], i); }
  }

  lemma {:induction false} DefsFind(xs: seq<Line>, l: Lbl)
    requires l in Defs(xs)
    ensures FindLabel(xs, l).Some?
    decreases |xs|
  {
    DefsAdd(xs[..1], xs[1..]);
    assert xs == xs[..1] + xs[1..];
    LineLast(xs[..1]);
    if xs[0] != Label(l) { DefsFind(xs[1..], l); }
  }

  /** Slots are named once: the allocas stand together after the entry label, each of a new slot. */
  ghost predicate OneSlotEach(head: seq<Line>) {
    && (forall i :: 0 <= i < |head| ==> head[i].Alloca?)
    && (forall i, j :: 0 <= i < j < |head| ==> head[i].slot < head[j].slot)
  }

  /** The text of any function: every label is defined once, every branch finds its label, and the allocas lead. */
  lemma {:induction false} WellLaidOut(f: Func, g: Sigs, lbl: nat)
    ensures var s := CFunc(f, g, lbl); var text := TextOf(s);
            && UniqueLabels(text)
            && (forall l :: l in Uses(text) ==> FindLabel(text, l).Some?)
            && OneSlotEach(s.head)
  {
    var s := CFunc(f, g, lbl);
    var front, text := [Label(Entry)] + s.head, TextOf(s);
    FuncGrows(f, g, lbl);
    DefsPlain(s.head);
    DefsAdd([Label(Entry)], s.head);
    assert [Label(Entry)][..0] == [];
    DefsAdd(front, s.body);
    AllFound(text);
  }

  /** Each label once and every target among them: the first mark found is the one meant. */
  lemma {:induction false} AllFound(text: seq<Line>)
    requires forall l :: Defs(text)[l] <= 1 && (l in Uses(text) ==> l in Defs(text))
    ensures UniqueLabels(text) && forall l :: l in Uses(text) ==> FindLabel(text, l).Some?
  {
    forall i: nat | LabelAt(text, i) ensures FindLabel(text, text[i].l) == Some(i) {
      DefsHas(text, i);
      OnceFound(text, i);
    }
    forall l | l in Uses(text) ensures FindLabel(text, l).Some? {
      DefsFind(text, l);
    }
  }
}
