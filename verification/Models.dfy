/** A protocol model as the explicit reading sees it: ranged integer variables, guarded steps of threads, and
    its runs. */
module Models {
  import opened Words

  type State = seq<int>

  datatype Op =
    | And | Or | Not | Implies | Ite
    | Equal | Distinct | Less | LessEq | Greater | GreaterEq
    | Plus | Minus | Times
  datatype Exp = Num(n: int) | Truth(b: bool) | Name(v: nat) | App(op: Op, args: seq<Exp>)

  const OPERAND_MAX: int := 2147483648
  const STATE_CAP: nat := 200000
  const PRODUCT_MAX: int := 4611686018427387904

  // --- evaluation -----------------------------------------------------------------------------

  function Bool(b: bool): int {
    if b then 1 else 0
  }

  predicate Operand(v: int) {
    -OPERAND_MAX <= v <= OPERAND_MAX
  }

  /** A value (a proposition is 0 or 1), or None where the reading cannot compute. */
  function Eval(e: Exp, s: State): Option<int>
    decreases e
  {
    match e
    case Num(n) => Some(n)
    case Truth(b) => Some(Bool(b))
    case Name(v) => if v < |s| then Some(s[v]) else None
    case App(op, args) =>
      if args == [] then None
      else
        match op
        case And => AllTrue(args, s)
        case Or => AnyTrue(args, s)
        case Not => Negated(Eval(args[0], s))
        case Implies => if |args| != 2 then None else Implied(args, s)
        case Ite => if |args| != 3 then None else Chosen(args, s)
        case Equal => var x := Eval(args[0], s); if x.None? then None else SameAs(x.value, args[1..], s)
        case Distinct => AllDistinct(args, s)
        case Plus => Folded(op, Eval(args[0], s), args[1..], s)
        case Times => Folded(op, Eval(args[0], s), args[1..], s)
        case Minus =>
          var x := Eval(args[0], s);
          if |args| == 1 then (if x.Some? && Operand(x.value) then Some(-x.value) else None)
          else Folded(op, x, args[1..], s)
        case _ => Chain(op, args, s)
  }

  function Negated(x: Option<int>): Option<int> {
    if x.None? then None else Some(Bool(x.value == 0))
  }

  function Implied(args: seq<Exp>, s: State): Option<int>
    requires |args| == 2
    decreases args
  {
    var p := Eval(args[0], s);
    if p.None? then None
    else if p.value == 0 then Some(1)
    else var q := Eval(args[1], s); if q.None? then None else Some(Bool(q.value != 0))
  }

  function Chosen(args: seq<Exp>, s: State): Option<int>
    requires |args| == 3
    decreases args
  {
    var p := Eval(args[0], s);
    if p.None? then None else if p.value != 0 then Eval(args[1], s) else Eval(args[2], s)
  }

  function AllTrue(args: seq<Exp>, s: State): Option<int>
    decreases args
  {
    if args == [] then Some(1)
    else
      var x := Eval(args[0], s);
      if x.None? || x.value == 0 then x else AllTrue(args[1..], s)
  }

  function AnyTrue(args: seq<Exp>, s: State): Option<int>
    decreases args
  {
    if args == [] then Some(0)
    else
      var x := Eval(args[0], s);
      if x.None? then None else if x.value != 0 then Some(1) else AnyTrue(args[1..], s)
  }

  /** Each operand compared with the first. */
  function SameAs(x: int, args: seq<Exp>, s: State): Option<int>
    decreases args
  {
    if args == [] then Some(1)
    else
      var y := Eval(args[0], s);
      if y.None? then None else if y.value != x then Some(0) else SameAs(x, args[1..], s)
  }

  /** Every pair, in order. */
  function AllDistinct(args: seq<Exp>, s: State): Option<int>
    decreases args
  {
    if |args| <= 1 then Some(1)
    else
      var x := Eval(args[0], s);
      if x.None? then None
      else
        var r := NoneEqual(x.value, args[1..], s);
        if r.None? || r.value == 0 then r else AllDistinct(args[1..], s)
  }

  function NoneEqual(x: int, args: seq<Exp>, s: State): Option<int>
    decreases args
  {
    if args == [] then Some(1)
    else
      var y := Eval(args[0], s);
      if y.None? then None else if y.value == x then Some(0) else NoneEqual(x, args[1..], s)
  }

  function Ordered(op: Op, x: int, y: int): bool {
    match op
    case Less => x < y
    case LessEq => x <= y
    case Greater => x > y
    case _ => x >= y
  }

  /** Adjacent pairs. */
  function Chain(op: Op, args: seq<Exp>, s: State): Option<int>
    decreases args
  {
    if |args| <= 1 then Some(1)
    else
      var x, y := Eval(args[0], s), Eval(args[1], s);
      if x.None? || y.None? then None
      else if !Ordered(op, x.value, y.value) then Some(0) else Chain(op, args[1..], s)
  }

  function Combined(op: Op, x: int, y: int): int {
    match op
    case Plus => x + y
    case Minus => x - y
    case _ => x * y
  }

  /** From the left, every operand held under 2^31 in magnitude. */
  function Folded(op: Op, acc: Option<int>, args: seq<Exp>, s: State): Option<int>
    decreases args
  {
    if acc.None? || args == [] then acc
    else
      var y := Eval(args[0], s);
      if y.None? || !Operand(acc.value) || !Operand(y.value) then None
      else Folded(op, Some(Combined(op, acc.value, y.value)), args[1..], s)
  }

  // --- models -----------------------------------------------------------------------------------

  datatype Step = Step(thread: nat, name: string, guard: Option<Exp>, next: seq<(nat, Exp)>)
  type StepKey = (nat, string)

  datatype Mutation = Replace(thread: string, step: string, guard: Option<Exp>,
          next: seq<(nat, Exp)>) | Remove(thread: string, step: string)
  datatype Control = Control(name: string, bad: string, mutations: seq<Mutation>)

  datatype Model = Model(
    lo: seq<int>, hi: seq<int>,            // the variables' ranges, in declaration order
    init: Exp, threads: seq<string>, steps: seq<Step>,
    bad: seq<(string, Exp)>, controls: seq<Control>,
    depth: nat, preempt: nat)

  predicate Ranged(m: Model, s: State) {
    |m.lo| == |m.hi| == |s| && forall v :: 0 <= v < |s| ==> m.lo[v] <= s[v] <= m.hi[v]
  }

  /** The first binding of a variable wins. */
  function Binding(next: seq<(nat, Exp)>, v: nat): Option<Exp> {
    if next == [] then None else if next[0].0 == v then Some(next[0].1) else Binding(next[1..], v)
  }

  /** The values after a step, read in the state before it; an unbound variable keeps its value. */
  function After(next: seq<(nat, Exp)>, s: State, n: nat): (r: Option<State>)
    requires n <= |s|
    ensures r.Some? ==> |r.value| == n
  {
    if n == 0 then Some([])
    else
      var rest, b := After(next, s, n - 1), Binding(next, n - 1);
      var x := if b.Some? then Eval(b.value, s) else Some(s[n - 1]);
      if rest.None? || x.None? then None else Some(rest.value + [x.value])
  }

  /** The first variable out of its range. */
  function FirstOut(lo: seq<int>, hi: seq<int>, s: State, v: nat): (r: Option<nat>)
    requires |lo| == |hi| == |s| && v <= |s|
    ensures r.Some? ==> v <= r.value < |s| && !(lo[r.value] <= s[r.value] <= hi[r.value])
    ensures r.None? <==> forall i :: v <= i < |s| ==> lo[i] <= s[i] <= hi[i]
    decreases |s| - v
  {
    if v == |s| then None else if !(lo[v] <= s[v] <= hi[v]) then Some(v) else FirstOut(lo, hi, s, v + 1)
  }

  datatype Tick = Problem | Idle | Leaves(v: nat, to: State) | Moves(to: State)

  predicate Shaped(m: Model, s: State) {
    |m.lo| == |m.hi| == |s|
  }

  /** One step taken in a state. */
  function Fire(m: Model, st: Step, s: State): (r: Tick)
    ensures r.Moves? ==> Ranged(m, r.to)
    ensures r.Leaves? ==> r.v < |s|
  {
    if !Shaped(m, s) then Problem
    else
      var g := if st.guard.Some? then Eval(st.guard.value, s) else Some(1);
      if g.None? then Problem
      else if g.value == 0 then Idle
      else
        var s1 := After(st.next, s, |s|);
        if s1.None? then Problem
        else
          var out := FirstOut(m.lo, m.hi, s1.value, 0);
          if out.Some? then Leaves(out.value, s1.value) else Moves(s1.value)
  }

  /** The successors of a state, in the order of the steps; None where a step cannot be computed. */
  function Succ(m: Model, steps: seq<Step>, s: State): Option<seq<(nat, State)>> {
    if steps == [] then Some([])
    else
      var k := |steps| - 1;
      var rest, x := Succ(m, steps[..k], s), Fire(m, steps[k], s);
      if rest.None? || x.Problem? then None
      else if x.Moves? then Some(rest.value + [(steps[k].thread, x.to)]) else rest
  }

  /** The steps of a model under a control: each mutation replaces or removes the steps it names. */
  function StepsUnder(m: Model, c: Control, steps: seq<Step>): seq<Step> {
    if steps == [] then []
    else
      var hits := Hits(m, steps[0], c.mutations);
      (if hits == [] then [steps[0]] else Replaced(steps[0], hits)) + StepsUnder(m, c, steps[1..])
  }

  function Hits(m: Model, st: Step, mus: seq<Mutation>): seq<Mutation> {
    if mus == [] then []
    else (if ThreadIndex(m.threads, mus[0].thread) == Some(st.thread) && mus[0].step == st.name then [mus[0]]
        else []) + Hits(m, st, mus[1..])
  }

  function ThreadIndex(threads: seq<string>, name: string): Option<nat> {
    if threads == [] then None
    else if threads[0] == name then Some(0)
    else var r := ThreadIndex(threads[1..], name); if r.Some? then Some(r.value + 1) else None
  }

  function Replaced(st: Step, hits: seq<Mutation>): seq<Step> {
    if hits == [] then []
    else (if hits[0].Replace? then [Step(st.thread, st.name, hits[0].guard, hits[0].next)]
        else []) + Replaced(st, hits[1..])
  }

  // --- runs ---------------------------------------------------------------------------------------

  /** The graph searched: the initial states, and each state's successors with the thread that moves. */
  datatype Graph = Graph(inits: set<State>, succ: State -> Option<seq<(nat, State)>>)

  predicate Edge(G: Graph, s: State, t: nat, s1: State) {
    G.succ(s).Some? && (t, s1) in G.succ(s).value
  }

  /** A run: its states from an initial one, and the thread of each step. */
  predicate IsRun(G: Graph, ss: seq<State>, ts: seq<nat>) {
    |ss| == |ts| + 1 && ss[0] in G.inits && forall i :: 0 <= i < |ts| ==> Edge(G, ss[i], ts[i], ss[i + 1])
  }

  /** Thread changes, counted over real steps. */
  function Changes(ts: seq<nat>): nat {
    if |ts| <= 1 then 0
    else Changes(ts[..|ts| - 1]) + (if ts[|ts| - 1] != ts[|ts| - 2] then 1 else 0)
  }

  ghost predicate Reaches(G: Graph, s: State, n: nat) {
    exists ss, ts :: IsRun(G, ss, ts) && |ts| == n && ss[n] == s
  }

  ghost predicate Reachable(G: Graph, s: State) {
    exists n :: Reaches(G, s, n)
  }

  type Key = (State, nat)   // a state, and the thread that moved into it

  /** A run of `n` real steps whose last is by the key's thread into its state, with `c` thread changes. */
  ghost predicate EndsAt(G: Graph, k: Key, n: nat, c: nat) {
    exists ss, ts :: IsRun(G, ss, ts) && |ts| == n > 0 && ss[n] == k.0 && ts[n - 1] == k.1 && Changes(ts) == c
  }

  function Cost(t: nat, t1: nat): nat {
    if t == t1 then 0 else 1
  }

  lemma RunMore(G: Graph, ss: seq<State>, ts: seq<nat>, t: nat, s1: State)
    requires IsRun(G, ss, ts) && Edge(G, ss[|ts|], t, s1)
    ensures IsRun(G, ss + [s1], ts + [t])
    ensures Changes(ts + [t]) == if ts == [] then 0 else Changes(ts) + Cost(ts[|ts| - 1], t)
  {
    assert (ts + [t])[..|ts|] == ts;
  }

  lemma {:induction false} RunLess(G: Graph, ss: seq<State>, ts: seq<nat>)
    requires IsRun(G, ss, ts) && ts != []
    ensures IsRun(G, ss[..|ts|], ts[..|ts| - 1])
    ensures Edge(G, ss[|ts| - 1], ts[|ts| - 1], ss[|ts|])
    ensures |ts| > 1 ==> Changes(ts) == Changes(ts[..|ts| - 1]) + Cost(ts[|ts| - 2], ts[|ts| - 1])
  {
    var n := |ts|;
    assert Edge(G, ss[n - 1], ts[n - 1], ss[n - 1 + 1]);
    forall i | 0 <= i < n - 1
      ensures Edge(G, ss[..n][i], ts[..n - 1][i], ss[..n][i + 1])
    {
      assert Edge(G, ss[i], ts[i], ss[i + 1]);
    }
  }

  lemma ReachesInit(G: Graph, s: State)
    requires s in G.inits
    ensures Reaches(G, s, 0)
  {
    assert IsRun(G, [s], []);
    assert [s][0] == s;
  }

  lemma ReachesNext(G: Graph, s: State, n: nat, t: nat, s1: State)
    requires Reaches(G, s, n) && Edge(G, s, t, s1)
    ensures Reaches(G, s1, n + 1)
  {
    var ss, ts :| IsRun(G, ss, ts) && |ts| == n && ss[n] == s;
    RunMore(G, ss, ts, t, s1);
    assert (ss + [s1])[n + 1] == s1;
  }

  lemma EndsFirst(G: Graph, s: State, t: nat, s1: State)
    requires s in G.inits && Edge(G, s, t, s1)
    ensures EndsAt(G, (s1, t), 1, 0)
  {
    RunMore(G, [s], [], t, s1);
    assert [] + [t] == [t] && [s] + [s1] == [s, s1];
    assert IsRun(G, [s, s1], [t]) && [s, s1][1] == s1;
  }

  lemma EndsNext(G: Graph, k: Key, n: nat, c: nat, t: nat, s1: State)
    requires EndsAt(G, k, n, c) && Edge(G, k.0, t, s1)
    ensures EndsAt(G, (s1, t), n + 1, c + Cost(k.1, t))
  {
    var ss, ts :| IsRun(G, ss, ts) && |ts| == n > 0 && ss[n] == k.0 && ts[n - 1] == k.1 && Changes(ts) == c;
    RunMore(G, ss, ts, t, s1);
    assert (ss + [s1])[n + 1] == s1 && (ts + [t])[n] == t;
  }

}
