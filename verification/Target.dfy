/** The flat form the seed emits -- labelled blocks of LLVM instructions, one list per function -- and a machine
    for it. */
module Target {
  import opened Words
  import opened Source

  /** What a label is for; with its number it is the label's name. */
  datatype Stem =
    | ScRhs | ScDone | RelayErr | RelayOk | EmphErr | EmphOk | QpDef | QpOk | QpDone
    | IfYes | IfNo | IfEnd | WhTop | WhTrip | WhEnd | PickArm | PickEnd

  datatype Lbl = Entry | L(stem: Stem, id: nat)

  datatype Opd = Const(v: int) | Reg(r: nat) | Param(i: nat)

  /** The LLVM form of a Result: `{ iN, i32 }`, or `{ i32 }` for Result<NIL>. */
  datatype ResLL = Pair(w: nat) | Lone

  datatype Line =
    | Define(name: string) | Close | Blank
    | Label(l: Lbl)
    | Alloca(slot: nat, w: nat)
    | Load(r: nat, w: nat, slot: nat)
    | Store(w: nat, o: Opd, slot: nat)
    | Bin(r: nat, op: MOp, w: nat, a: Opd, b: Opd)
    | Icmp(r: nat, p: Pred, w: nat, a: Opd, b: Opd)
    | Zext(r: nat, a: Opd, w: nat)                       // from i1
    | CallFn(r: nat, ret: ResLL, callee: string, args: seq<(nat, Opd)>)
    | Extract(r: nat, agg: Opd, idx: nat, w: nat)
    | Insert(r: nat, into: Option<Opd>, w: nat, o: Opd, idx: nat)   // None is undef
    | Br(target: Lbl)
    | CondBr(o: Opd, yes: Lbl, no: Lbl)
    | Switch(w: nat, o: Opd, dflt: Lbl, cases: seq<(int, Lbl)>)
    | RetWord(w: nat, o: Opd)
    | RetAgg(o: Opd)
    | RetLone                                           // ret { i32 } { i32 0 }
    | RetZero(ret: ResLL)                               // ret ... zeroinitializer
    | CallFailsafe(r: nat, o: Opd)
    | CallExit(o: Opd)
    | Unreachable

  predicate Terminator(x: Line) {
    x.Br? || x.CondBr? || x.Switch? || x.RetWord? || x.RetAgg? || x.RetLone? || x.RetZero? || x.Unreachable?
  }

  /** A register holds a word of some width or a Result's fields; a slot holds a word of its type, or nothing yet. */
  datatype MV = Word(w: nat, b: nat) | Agg(fs: map<nat, nat>)
  datatype Cell = Cell(w: nat, v: Option<nat>)

  datatype Cfg = Cfg(pc: nat, regs: map<nat, MV>, mem: map<nat, Cell>, tr: seq<Event>)
  datatype Final = Returned(mv: MV, tr: seq<Event>) | Ended(h: Halt) | Stuck
  datatype MR = Run(c: Cfg) | Done(f: Final)

  /** What stays fixed in a run: the outside, the arguments, and the text. */
  datatype World = World(o: Oracle, args: seq<nat>, text: seq<Line>)

  function FindLabel(text: seq<Line>, l: Lbl): (i: Option<nat>)
    ensures i.Some? ==> i.value < |text| && text[i.value] == Label(l)
  {
    if text == [] then None
    else if text[0] == Label(l) then Some(0)
    else
      var r := FindLabel(text[1..], l);
      if r.Some? then Some(r.value + 1) else None
  }

  /** An operand read at a width: a register must hold a word of that width. */
  function Read(W: World, c: Cfg, n: nat, x: Opd): Option<nat> {
    match x
    case Const(v) => Some(Enc(n, v))
    case Reg(r) => if r in c.regs && c.regs[r].Word? && c.regs[r].w == n then Some(c.regs[r].b) else None
    case Param(i) => if i < |W.args| then Some(Enc(n, W.args[i])) else None
  }

  function ReadAll(W: World, c: Cfg, xs: seq<(nat, Opd)>): Option<seq<nat>> {
    if xs == [] then Some([])
    else
      var x, rest := Read(W, c, xs[0].0, xs[0].1), ReadAll(W, c, xs[1..]);
      if x.Some? && rest.Some? then Some([x.value] + rest.value) else None
  }

  function ReadAgg(c: Cfg, x: Opd): Option<map<nat, nat>> {
    if x.Reg? && x.r in c.regs && c.regs[x.r].Agg? then Some(c.regs[x.r].fs) else None
  }

  function Set(c: Cfg, r: nat, v: MV): MR {
    Run(c.(pc := c.pc + 1, regs := c.regs[r := v]))
  }

  function Jump(W: World, c: Cfg, l: Lbl): MR {
    var i := FindLabel(W.text, l);
    if i.Some? then Run(c.(pc := i.value + 1)) else Done(Stuck)
  }

  function CaseOf(w: nat, x: nat, cases: seq<(int, Lbl)>, dflt: Lbl): Lbl {
    if cases == [] then dflt
    else if Enc(w, cases[0].0) == x then cases[0].1
    else CaseOf(w, x, cases[1..], dflt)
  }

  /** One instruction; control is at it. */
  function Do(W: World, x: Line, c: Cfg): MR {
    match x
    case Alloca(slot, w) => Run(c.(pc := c.pc + 1, mem := c.mem[slot := Cell(w, None)]))
    case Load(r, w, slot) =>
      if slot in c.mem && c.mem[slot].w == w && c.mem[slot].v.Some? then Set(c, r, Word(w, c.mem[slot].v.value))
      else Done(Stuck)
    case Store(w, x, slot) =>
      var v := Read(W, c, w, x);
      if slot in c.mem && c.mem[slot].w == w && v.Some? then Run(c.(pc := c.pc + 1, mem := c.mem[slot := Cell(w, v)]))
      else Done(Stuck)
    case Bin(r, op, w, a, b) =>
      var x, y := Read(W, c, w, a), Read(W, c, w, b);
      if x.None? || y.None? then Done(Stuck)
      else
        var z := MBin(op, w, x.value, y.value);
        if z.Some? then Set(c, r, Word(w, z.value)) else Done(Ended(Undefined(c.tr)))
    case Icmp(r, p, w, a, b) =>
      var x, y := Read(W, c, w, a), Read(W, c, w, b);
      if x.None? || y.None? then Done(Stuck)
      else Set(c, r, Word(1, if MCmp(p, w, x.value, y.value) then 1 else 0))
    case Zext(r, a, w) =>
      var x := Read(W, c, 1, a);
      if x.Some? then Set(c, r, Word(w, x.value)) else Done(Stuck)
    case CallFn(r, ret, callee, args) =>
      var xs := ReadAll(W, c, args);
      if xs.None? then Done(Stuck)
      else
        var tr' := c.tr + [Called(callee, xs.value)];
        var fs := match ret
                  case Pair(w) => map[0 := Enc(w, W.o(tr').bits), 1 := Enc(32, W.o(tr').code)]
                  case Lone => map[0 := Enc(32, W.o(tr').code)];
        Set(c.(tr := tr'), r, Agg(fs))
    case Extract(r, x, idx, w) =>
      var fs := ReadAgg(c, x);
      if fs.Some? && idx in fs.value then Set(c, r, Word(w, Enc(w, fs.value[idx]))) else Done(Stuck)
    case Insert(r, agg, w, x, idx) =>
      var v := Read(W, c, w, x);
      var fs := if agg.None? then Some(map[]) else ReadAgg(c, agg.value);
      if v.Some? && fs.Some? then Set(c, r, Agg(fs.value[idx := v.value])) else Done(Stuck)
    case Br(l) => Jump(W, c, l)
    case CondBr(x, yes, no) =>
      var v := Read(W, c, 1, x);
      if v.Some? then Jump(W, c, if v.value != 0 then yes else no) else Done(Stuck)
    case Switch(w, x, dflt, cases) =>
      var v := Read(W, c, w, x);
      if v.Some? then Jump(W, c, CaseOf(w, v.value, cases, dflt)) else Done(Stuck)
    case RetWord(w, x) =>
      var v := Read(W, c, w, x);
      if v.Some? then Done(Returned(Word(w, v.value), c.tr)) else Done(Stuck)
    case RetAgg(x) =>
      var fs := ReadAgg(c, x);
      if fs.Some? then Done(Returned(Agg(fs.value), c.tr)) else Done(Stuck)
    case RetLone => Done(Returned(Agg(map[0 := 0]), c.tr))
    case RetZero(Pair(_)) => Done(Returned(Agg(map[0 := 0, 1 := 0]), c.tr))
    case RetZero(Lone) => Done(Returned(Agg(map[0 := 0]), c.tr))
    case CallFailsafe(r, x) =>
      var v := Read(W, c, 32, x);
      if v.None? then Done(Stuck)
      else
        var tr' := c.tr + [Called("failsafe", [v.value])];
        Set(c.(tr := tr'), r, Word(32, Enc(32, W.o(tr').bits)))
    case CallExit(x) =>
      var v := Read(W, c, 32, x);
      if v.Some? then Done(Ended(Exited(v.value, c.tr))) else Done(Stuck)
    case _ => Done(Stuck)   // a label fallen into, `unreachable`, or no instruction at all
  }

  function Step(W: World, c: Cfg): MR {
    if c.pc < |W.text| then Do(W, W.text[c.pc], c) else Done(Stuck)
  }

  /** `k` steps of a machine, or its answer if it stops before. */
  function Steps(step: Cfg -> MR, c: Cfg, k: nat): MR
    decreases k
  {
    if k == 0 then Run(c)
    else
      match step(c)
      case Run(c1) => Steps(step, c1, k - 1)
      case Done(f) => Done(f)
  }

  lemma {:induction false} StepsAdd(step: Cfg -> MR, c: Cfg, k: nat, c1: Cfg, k1: nat)
    requires Steps(step, c, k) == Run(c1)
    ensures Steps(step, c, k + k1) == Steps(step, c1, k1)
    decreases k
  {
    if k > 0 {
      match step(c) {
        case Run(c2) => StepsAdd(step, c2, k - 1, c1, k1);
        case Done(_) =>
      }
    }
  }

  /** A run that is done stays done, with one answer. */
  lemma {:induction false} DoneStays(step: Cfg -> MR, c: Cfg, k: nat, k1: nat)
    requires Steps(step, c, k).Done? && k <= k1
    ensures Steps(step, c, k1) == Steps(step, c, k)
    decreases k
  {
    if k > 0 {
      match step(c) {
        case Run(c2) => DoneStays(step, c2, k - 1, k1 - 1);
        case Done(_) =>
      }
    }
  }

  // --- labels -----------------------------------------------------------------

  predicate LabelAt(text: seq<Line>, i: nat) {
    i < |text| && text[i].Label?
  }

  /** Every label is the first of its name: none is defined twice. */
  ghost predicate UniqueLabels(text: seq<Line>) {
    forall i: nat :: LabelAt(text, i) ==> FindLabel(text, text[i].l) == Some(i)
  }
}
