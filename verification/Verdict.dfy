/** One model's explicit reading: its initial states, its search, and what the findings say of every run. */
module Verdict {
  import opened Words
  import opened Models
  import opened Explorer

  // --- the initial states --------------------------------------------------------------------------

  /** The variables a conjunct of `init` fixes to a numeral; the first such conjunct counts. */
  function Pinned(conjuncts: seq<Exp>, n: nat): map<nat, int> {
    if conjuncts == [] then map[]
    else
      var c, k := conjuncts[|conjuncts| - 1], Pinned(conjuncts[..|conjuncts| - 1], n);
      if PinOf(c, n).Some? && PinOf(c, n).value.0 !in k then k[PinOf(c, n).value.0 := PinOf(c, n).value.1] else k
  }

  function PinOf(c: Exp, n: nat): Option<(nat, int)> {
    if c.App? && c.op.Equal? && |c.args| == 2 && c.args[0].Name? && c.args[1].Num? && c.args[0].v < n
        then Some((c.args[0].v, c.args[1].n))
    else None
  }

  function Pins(m: Model): map<nat, int> {
    if m.init.App? && m.init.op.And? then Pinned(m.init.args, |m.lo|) else map[]
  }

  predicate Holds(e: Exp, s: State) {
    var x := Eval(e, s); x.Some? && x.value != 0
  }

  /** The values a variable can start with. */
  predicate StartValue(m: Model, v: nat, x: int)
    requires v < |m.lo| == |m.hi|
  {
    if v in Pins(m) then x == Pins(m)[v] else m.lo[v] <= x <= m.hi[v]
  }

  predicate Candidate(m: Model, s: State, n: nat)
    requires n <= |m.lo| == |m.hi|
  {
    |s| == n && forall v :: 0 <= v < n ==> StartValue(m, v, s[v])
  }

  predicate Initial(m: Model, s: State)
    requires |m.lo| == |m.hi|
  {
    Candidate(m, s, |m.lo|) && Holds(m.init, s)
  }

  /** How many values the first `n` variables can start with between them. */
  function Starts(m: Model, n: nat): int
    requires n <= |m.lo| == |m.hi|
  {
    if n == 0 then 1 else Starts(m, n - 1) * (if n - 1 in Pins(m) then 1 else m.hi[n - 1] - m.lo[n - 1] + 1)
  }

  /** How many states the first `n` ranges span. */
  function Spans(m: Model, n: nat): int
    requires n <= |m.lo| == |m.hi|
  {
    if n == 0 then 1 else Spans(m, n - 1) * (m.hi[n - 1] - m.lo[n - 1] + 1)
  }

  predicate NoneEmpty(m: Model, n: nat)
    requires n <= |m.lo| == |m.hi|
  {
    forall v :: 0 <= v < n ==> m.lo[v] <= m.hi[v]
  }

  lemma {:induction false} SpansGrow(m: Model, i: nat, n: nat)
    requires i <= n <= |m.lo| == |m.hi| && NoneEmpty(m, n)
    ensures 1 <= Spans(m, i) <= Spans(m, n)
    decreases n
  {
    if n > i {
      SpansGrow(m, i, n - 1);
      Scaled(Spans(m, n - 1), m.hi[n - 1] - m.lo[n - 1] + 1);
    } else if n > 0 {
      SpansGrow(m, n - 1, n - 1);
      Scaled(Spans(m, n - 1), m.hi[n - 1] - m.lo[n - 1] + 1);
    }
  }

  lemma Scaled(a: int, r: int)
    requires a >= 1 && r >= 1
    ensures a <= a * r
  {
    assert a * r == a + a * (r - 1);
  }

  lemma Divides(p: int, r: int)
    requires r >= 1
    ensures p > PRODUCT_MAX / r <==> p * r > PRODUCT_MAX
  {
    var q := PRODUCT_MAX / r;
    assert PRODUCT_MAX == q * r + PRODUCT_MAX % r;
    if p > q {
      assert p * r >= (q + 1) * r by { MulMono(q + 1, p, r); }
    } else {
      assert p * r <= q * r by { MulMono(p, q, r); }
    }
  }

  /** The ranges span few enough states for one 64-bit number to name each. */
  method Fits(m: Model) returns (b: bool)
    requires |m.lo| == |m.hi|
    ensures b <==> NoneEmpty(m, |m.lo|) && Spans(m, |m.lo|) <= 4611686018427387904
  {
    var prod := 1;
    var v := 0;
    while v < |m.lo|
      invariant 0 <= v <= |m.lo| && NoneEmpty(m, v) && prod == Spans(m, v) <= PRODUCT_MAX
    {
      var radix := m.hi[v] - m.lo[v] + 1;
      if radix < 1 { return false; }
      Divides(prod, radix);
      if prod > PRODUCT_MAX / radix {
        assert Spans(m, v + 1) > PRODUCT_MAX;
        if NoneEmpty(m, |m.lo|) { SpansGrow(m, v + 1, |m.lo|); }
        return false;
      }
      prod := prod * radix;
      v := v + 1;
    }
    b := true;
  }

  /** Each assignment so far, with each value of the next variable. */
  method Extend(m: Model, cur: seq<State>, v: nat) returns (next: seq<State>)
    requires v < |m.lo| == |m.hi| && (v in Pins(m) || m.lo[v] <= m.hi[v])
    requires |cur| == Starts(m, v) && forall s :: s in cur <==> Candidate(m, s, v)
    ensures |next| == Starts(m, v + 1) && forall s :: s in next <==> Candidate(m, s, v + 1)
  {
    var lo, hi := if v in Pins(m) then Pins(m)[v] else m.lo[v], if v in Pins(m) then Pins(m)[v] else m.hi[v];
    next := [];
    var i := 0;
    while i < |cur|
      invariant 0 <= i <= |cur| && |next| == i * (hi - lo + 1)
      invariant forall s :: s in next <==> exists j, x :: 0 <= j < i && lo <= x <= hi && s == cur[j] + [x]
    {
      var x := lo;
      ghost var before := next;
      while x <= hi
        invariant lo <= x <= hi + 1 && |next| == |before| + (x - lo)
        invariant forall s :: s in next <==> s in before || exists y :: lo <= y < x && s == cur[i] + [y]
      {
        next := next + [cur[i] + [x]];
        x := x + 1;
      }
      i := i + 1;
    }
    ExtendIs(m, cur, v, next, lo, hi);
  }

  lemma ExtendIs(m: Model, cur: seq<State>, v: nat, next: seq<State>, lo: int, hi: int)
    requires v < |m.lo| == |m.hi| && forall x :: StartValue(m, v, x) <==> lo <= x <= hi
    requires forall s :: s in cur <==> Candidate(m, s, v)
    requires forall s :: s in next <==> exists j, x :: 0 <= j < |cur| && lo <= x <= hi && s == cur[j] + [x]
    ensures forall s :: s in next <==> Candidate(m, s, v + 1)
  {
    forall s | Candidate(m, s, v + 1) ensures s in next {
      assert StartValue(m, v, s[v]);
      assert Candidate(m, s[..v], v);
      var j :| 0 <= j < |cur| && cur[j] == s[..v];
      assert s == cur[j] + [s[v]];
    }
    forall s | s in next ensures Candidate(m, s, v + 1) {
      var j, x :| 0 <= j < |cur| && lo <= x <= hi && s == cur[j] + [x];
      assert cur[j] in cur && StartValue(m, v, x);
    }
  }

  method InitialStates(m: Model) returns (r: Outcome<seq<State>>)
    requires |m.lo| == |m.hi| && NoneEmpty(m, |m.lo|)
    ensures match r
            case Done(inits) => |inits| <= 200000 && forall s :: s in inits <==> Initial(m, s)
            case Refused(TooLarge) => exists n :: 0 <= n <= |m.lo| && Starts(m, n) > 200000
            case Refused(Unreadable) => exists s :: Candidate(m, s, |m.lo|) && Eval(m.init, s).None?
  {
    var cur: seq<State> := [[]];
    var v := 0;
    while v < |m.lo|
      invariant 0 <= v <= |m.lo| && |cur| == Starts(m, v) <= STATE_CAP && forall s :: s in cur <==> Candidate(m, s, v)
    {
      cur := Extend(m, cur, v);
      v := v + 1;
      if |cur| > STATE_CAP { return Refused(TooLarge); }
    }
    var inits: seq<State> := [];
    var i := 0;
    while i < |cur|
      invariant 0 <= i <= |cur| && |inits| <= i && forall s :: s in inits <==> s in cur[..i] && Holds(m.init, s)
    {
      var x := Eval(m.init, cur[i]);
      if x.None? {
        assert cur[i] in cur;
        return Refused(Unreadable);
      }
      if x.value != 0 { inits := inits + [cur[i]]; }
      i := i + 1;
    }
    assert cur[..i] == cur;
    r := Done(inits);
  }

  // --- the search of a model -----------------------------------------------------------------------------

  /** The graph of a model under some steps: all its initial states, and the moves its steps make. */
  ghost predicate IsGraph(m: Model, steps: seq<Step>, G: Graph)
    requires |m.lo| == |m.hi|
  {
    G == GraphOf(m, steps, G.inits) && forall s :: s in G.inits <==> Initial(m, s)
  }

  ghost predicate IsGraphOf(m: Model, steps: seq<Step>, G: Graph) {
    |m.lo| == |m.hi| && IsGraph(m, steps, G)
  }

  /** Why a model may be refused: it is too large to finish, or an expression cannot be computed. */
  ghost predicate Excused(m: Model, steps: seq<Step>, why: Refusal)
    requires |m.lo| == |m.hi|
  {
    match why
    case TooLarge =>
      || !NoneEmpty(m, |m.lo|) || Spans(m, |m.lo|) > 4611686018427387904
         || (exists n :: 0 <= n <= |m.lo| && Starts(m, n) > 200000)
      || (exists G :: IsGraph(m, steps, G) && TooMany(G))
    case Unreadable =>
      || (exists s :: Candidate(m, s, |m.lo|) && Eval(m.init, s).None?)
      || (exists G :: IsGraph(m, steps, G) && Stuck(G))
  }

  /** A search's report on the graph of a model. */
  ghost predicate Explored(m: Model, steps: seq<Step>, rep: Report) {
    exists G :: IsGraphOf(m, steps, G) && ExactReport(m, steps, G, rep)
  }

  method ExploreModel(m: Model, steps: seq<Step>) returns (r: Outcome<Report>)
    requires |m.lo| == |m.hi|
    ensures match r
            case Done(rep) => Explored(m, steps, rep)
            case Refused(why) => Excused(m, steps, why)
  {
    var fits := Fits(m);
    if !fits { return Refused(TooLarge); }
    var inits := InitialStates(m);
    if inits.Refused? { return Refused(inits.why); }
    ghost var G := GraphOf(m, steps, Elements(inits.value));
    assert IsGraph(m, steps, G);
    var search := new Search(m, steps);
    r := search.Explore(inits.value);
    assert IsGraphOf(m, steps, G);
  }

  // --- the findings ----------------------------------------------------------------------------------------

  datatype Finding =
    | RangeBlocks(key: StepKey, v: nat)
    | BadReachable(bad: string, depth: nat, switches: nat, within: bool)
    | NoSuchBad(control: string)
    | ControlUnreachable(control: string, bad: string, least: Option<(nat, nat)>)

  /** Some reachable state satisfies a predicate; the least depth and thread changes of those that do. */
  ghost predicate ReachesBad(G: Graph, e: Exp, depth: nat, switches: nat) {
    && (exists s :: Holds(e, s) && Reaches(G, s, depth))
    && (forall s, n :: Holds(e, s) && Reaches(G, s, n) ==> depth <= n)
    && (exists s, n :: Holds(e, s) && EndsIn(G, s, n, switches))
    && (forall s, n, c :: Holds(e, s) && EndsIn(G, s, n, c) ==> switches <= c)
  }

  ghost predicate Unreached(G: Graph, e: Exp) {
    forall s :: Reachable(G, s) ==> !Holds(e, s)
  }

  /** The model's bounds: its depth in steps, the first always taken, and its thread changes. */
  ghost predicate ReachedWithin(m: Model, G: Graph, e: Exp) {
    exists s, n: nat, c: nat :: n <= (if m.depth == 0 then 1 else m.depth) && c <= m.preempt && Holds(e, s)
        && EndsIn(G, s, n, c)
  }

  /** The states of a search that satisfy a predicate, with the least depth and thread changes over them. */
  method Hits(G0: Report, e: Exp, ghost G: Graph, ghost m: Model, ghost steps: seq<Step>)
    returns (r: Option<Option<(nat, nat)>>, within: bool)
    requires ExactReport(m, steps, G, G0)
    ensures r.None? ==> exists s :: Reachable(G, s) && Eval(e, s).None?
    ensures r.Some? ==> (if r.value.None? then Unreached(G, e) else ReachesBad(G, e, r.value.value.0, r.value.value.1))
    ensures r.Some? ==> (within <==> ReachedWithin(m, G, e))
  {
    forall s | s in G0.dist ensures s in G0.switches { SwitchesKnown(m, steps, G, G0, s); }
    var depth, switches, any, unread, bad;
    depth, switches, any, within, unread, bad := HitsOver(G0, e);
    if unread {
      ReachedHere(m, steps, G, G0, bad);
      return None, false;
    }
    HitsAll(m, steps, G, G0, e, depth, switches, any, within);
    r := Some(if any then Some((depth, switches)) else None);
  }

  /** The states in turn, up to one on which the predicate cannot be computed. */
  method HitsOver(G0: Report, e: Exp)
          returns (depth: nat, switches: nat, any: bool, within: bool, unread: bool, bad: State)
    requires forall s :: s in G0.dist ==> s in G0.switches
    ensures if unread then bad in G0.dist && Eval(e, bad).None?
            else HitsSoFar(G0, e, G0.dist.Keys, depth, switches, any, within)
  {
    var rest := G0.dist.Keys;
    ghost var done: set<State> := {};
    depth, switches, any, within, unread, bad := 0, 0, false, false, false, [];
    while rest != {}
      invariant rest + done == G0.dist.Keys && !unread
      invariant HitsSoFar(G0, e, done, depth, switches, any, within)
      decreases |rest|
    {
      var s: State :| s in rest;
      var x := Eval(e, s);
      if x.None? { return depth, switches, any, within, true, s; }
      if x.value == 0 {
        NoHit(G0, e, done, depth, switches, any, within, s);
      } else {
        var d1, c1 := Lesser(any, depth, G0.dist[s]), Lesser(any, switches, G0.switches[s]);
        OneHit(G0, e, done, depth, switches, any, within, s);
        depth, switches, any, within := d1, c1, true, within || s in G0.inside;
      }
      rest, done := rest - {s}, done + {s};
    }
  }

  ghost predicate HitsSoFar(rep: Report, e: Exp, D: set<State>, depth: nat, switches: nat, any: bool, within: bool) {
    && (forall s :: s in D ==> s in rep.dist && s in rep.switches)
    && (any <==> exists s :: s in D && Holds(e, s))
    && (any ==> exists s :: s in D && Holds(e, s) && rep.dist[s] == depth)
    && (any ==> exists s :: s in D && Holds(e, s) && rep.switches[s] == switches)
    && (forall s :: s in D && Holds(e, s) ==> depth <= rep.dist[s] && switches <= rep.switches[s])
    && (within <==> exists s :: s in D && Holds(e, s) && s in rep.inside)
  }

  function Lesser(any: bool, a: nat, b: nat): nat {
    if any && a <= b then a else b
  }

  lemma NoHit(rep: Report, e: Exp, D: set<State>, depth: nat, switches: nat, any: bool, within: bool, s: State)
    requires HitsSoFar(rep, e, D, depth, switches, any, within) && s in rep.dist && s in rep.switches && !Holds(e, s)
    ensures HitsSoFar(rep, e, D + {s}, depth, switches, any, within)
  {
    if any {
      var s1 :| s1 in D && Holds(e, s1) && rep.dist[s1] == depth;
      var s2 :| s2 in D && Holds(e, s2) && rep.switches[s2] == switches;
      assert s1 in D + {s} && s2 in D + {s};
    }
    if within {
      var s3 :| s3 in D && Holds(e, s3) && s3 in rep.inside;
      assert s3 in D + {s};
    }
  }

  lemma OneHit(rep: Report, e: Exp, D: set<State>, depth: nat, switches: nat, any: bool, within: bool, s: State)
    requires HitsSoFar(rep, e, D, depth, switches, any, within) && s in rep.dist && s in rep.switches && Holds(e, s)
    ensures HitsSoFar(rep, e, D + {s}, Lesser(any, depth, rep.dist[s]), Lesser(any, switches, rep.switches[s]), true,
            within || s in rep.inside)
  {
    var D1 := D + {s};
    assert s in D1;
    if any {
      var s1 :| s1 in D && Holds(e, s1) && rep.dist[s1] == depth;
      var s2 :| s2 in D && Holds(e, s2) && rep.switches[s2] == switches;
      assert s1 in D1 && s2 in D1;
    }
    if within {
      var s3 :| s3 in D && Holds(e, s3) && s3 in rep.inside;
      assert s3 in D1;
    }
  }

  lemma ReachedHere(m: Model, steps: seq<Step>, G: Graph, rep: Report, s: State)
    requires ExactReport(m, steps, G, rep) && s in rep.dist
    ensures Reachable(G, s)
  {
    assert Reaches(G, s, rep.dist[s]);
  }

  lemma SwitchesKnown(m: Model, steps: seq<Step>, G: Graph, rep: Report, s: State)
    requires ExactReport(m, steps, G, rep) && s in rep.dist
    ensures s in rep.switches
  {
    var n := rep.dist[s];
    assert Reaches(G, s, n);
    var ss, ts :| IsRun(G, ss, ts) && |ts| == n && ss[n] == s;
    assert EndsIn(G, s, n, Changes(ts));
  }

  lemma EndsReachable(G: Graph, s: State, n: nat, c: nat)
    requires EndsIn(G, s, n, c)
    ensures Reaches(G, s, n) && Reachable(G, s)
  {
    var ss, ts :| IsRun(G, ss, ts) && |ts| == n && ss[n] == s && Changes(ts) == c;
    assert Reaches(G, s, n);
  }

  lemma HitsAll(m: Model, steps: seq<Step>, G: Graph, rep: Report, e: Exp, depth: nat, switches: nat, any: bool,
          within: bool)
    requires ExactReport(m, steps, G, rep) && HitsSoFar(rep, e, rep.dist.Keys, depth, switches, any, within)
    ensures if any then ReachesBad(G, e, depth, switches) else Unreached(G, e)
    ensures within <==> ReachedWithin(m, G, e)
  {
    if any {
      var s1 :| s1 in rep.dist && Holds(e, s1) && rep.dist[s1] == depth;
      assert Reaches(G, s1, depth);
      var s2 :| s2 in rep.dist && Holds(e, s2) && rep.switches[s2] == switches;
      var n2: nat :| EndsIn(G, s2, n2, switches);
      forall s, n, c | Holds(e, s) && EndsIn(G, s, n, c) ensures switches <= c { EndsReachable(G, s, n, c); }
    } else {
      forall s | Reachable(G, s) ensures !Holds(e, s) { var n :| Reaches(G, s, n); }
    }
    if within {
      var s :| s in rep.dist && Holds(e, s) && s in rep.inside;
    }
    forall s, n: nat, c: nat | n <= (if m.depth == 0 then 1 else m.depth) && c <= m.preempt && Holds(e, s)
        && EndsIn(G, s, n, c)
      ensures within
    {
      EndsReachable(G, s, n, c);
      assert s in rep.inside;
    }
  }

  /** The smallest variable a step can take out of its range from a reachable state. */
  ghost predicate Blocks(m: Model, G: Graph, key: StepKey, v: nat) {
    && (exists s :: Reachable(G, s) && LeavesAt(m, m.steps, key, s, v))
    && (forall s, u :: Reachable(G, s) && LeavesAt(m, m.steps, key, s, u) ==> v <= u)
  }

  ghost predicate RangeReport(m: Model, G: Graph, fails: seq<Finding>) {
    forall key, v :: RangeBlocks(key, v) in fails <==> Blocks(m, G, key, v)
  }

  ghost predicate BadExact(m: Model, G: Graph, i: nat, depth: nat, switches: nat, within: bool)
    requires i < |m.bad|
  {
    ReachesBad(G, m.bad[i].1, depth, switches) && (within <==> ReachedWithin(m, G, m.bad[i].1))
  }

  /** The first `n` bad predicates: each is reported, exactly, or reached by no run. */
  ghost predicate BadReport(m: Model, G: Graph, fails: seq<Finding>, n: nat)
    requires n <= |m.bad|
  {
    && (forall i :: 0 <= i < n ==>
          Unreached(G, m.bad[i].1)
          || exists d, c, w :: BadReachable(m.bad[i].0, d, c, w) in fails && BadExact(m, G, i, d, c, w))
    && (forall b, d, c, w :: BadReachable(b, d, c, w) in fails ==>
          exists i :: 0 <= i < n && m.bad[i].0 == b && BadExact(m, G, i, d, c, w))
  }

  /** The predicate a name stands for: the last one declared under it. */
  function BadNamed(bads: seq<(string, Exp)>, name: string): Option<Exp> {
    if bads == [] then None
    else if bads[|bads| - 1].0 == name then Some(bads[|bads| - 1].1)
    else BadNamed(bads[..|bads| - 1], name)
  }

  lemma {:induction false} BadNamedIs(bads: seq<(string, Exp)>, name: string, e: Exp)
    ensures BadNamed(bads, name) == Some(e) <==>
              exists i :: 0 <= i < |bads| && bads[i] == (name, e) && forall j :: i < j < |bads| ==> bads[j].0 != name
    ensures BadNamed(bads, name).None? <==> forall i :: 0 <= i < |bads| ==> bads[i].0 != name
  {
    if bads != [] {
      var k := |bads| - 1;
      BadNamedIs(bads[..k], name, e);
      assert forall i :: 0 <= i < k ==> bads[..k][i] == bads[i];
    }
  }

  /** A control's mutated model reaches its bad predicate within the bounds. */
  ghost predicate Witnessed(m: Model, c: Control) {
    && BadNamed(m.bad, c.bad).Some?
    && exists G :: IsGraphOf(m, StepsUnder(m, c, m.steps), G) && ReachedWithin(m, G, BadNamed(m.bad, c.bad).value)
  }

  /** It does not: no run reaches the predicate, or none within the bounds, with the least depth and thread
      changes of those that do. */
  ghost predicate Missed(m: Model, c: Control, least: Option<(nat, nat)>) {
    BadNamed(m.bad, c.bad).Some? &&
    exists G :: IsGraphOf(m, StepsUnder(m, c, m.steps), G) && MissedIn(m, G, BadNamed(m.bad, c.bad).value, least)
  }

  ghost predicate MissedIn(m: Model, G: Graph, e: Exp, least: Option<(nat, nat)>) {
    !ReachedWithin(m, G, e) && if least.None? then Unreached(G, e) else ReachesBad(G, e, least.value.0, least.value.1)
  }

  /** There is one graph of a model, so a control cannot both bite and miss. */
  lemma MissedNotWitnessed(m: Model, c: Control, least: Option<(nat, nat)>)
    requires Missed(m, c, least)
    ensures !Witnessed(m, c)
  {
    var steps, e := StepsUnder(m, c, m.steps), BadNamed(m.bad, c.bad).value;
    var G :| IsGraphOf(m, steps, G) && MissedIn(m, G, e, least);
    forall G1 | IsGraphOf(m, steps, G1)
      ensures G1 == G
    {
      assert G1.inits == G.inits;
    }
  }

  /** A control's finding: its bad predicate has no declaration, or it misses, as reported. */
  ghost predicate Reports(m: Model, c: Control, f: Finding) {
    || (f == NoSuchBad(c.name) && BadNamed(m.bad, c.bad).None?)
    || (f.ControlUnreachable? && f.control == c.name && f.bad == c.bad && Missed(m, c, f.least))
  }

  /** A control that is reported does miss. */
  lemma ReportedMisses(m: Model, c: Control, f: Finding)
    requires Reports(m, c, f)
    ensures !Witnessed(m, c)
  {
    if f.ControlUnreachable? { MissedNotWitnessed(m, c, f.least); }
  }

  /** The first `n` controls: each reaches what it should, or is reported; and only those that do not are. */
  ghost predicate ControlReport(m: Model, fails: seq<Finding>, n: nat)
    requires n <= |m.controls|
  {
    && (forall i :: 0 <= i < n ==>
          Witnessed(m, m.controls[i]) || exists f :: f in fails && Reports(m, m.controls[i], f))
    && (forall f :: f in fails && (f.NoSuchBad? || f.ControlUnreachable?) ==>
          exists i :: 0 <= i < n && !Witnessed(m, m.controls[i]) && Reports(m, m.controls[i], f))
  }

  /** A bad predicate that cannot be computed in some reachable state of the model under these steps. */
  ghost predicate BadUnreadable(m: Model, steps: seq<Step>, e: Exp) {
    exists G, s :: IsGraphOf(m, steps, G) && Reachable(G, s) && Eval(e, s).None?
  }

  /** One of the model's bad predicates cannot be computed in some state it is asked about. */
  ghost predicate SomeBadUnreadable(m: Model) {
    || (exists j :: 0 <= j < |m.bad| && BadUnreadable(m, m.steps, m.bad[j].1))
    || (exists i :: 0 <= i < |m.controls| && ControlUnreadable(m, m.controls[i]))
  }

  ghost predicate ControlUnreadable(m: Model, c: Control) {
    BadNamed(m.bad, c.bad).Some? && BadUnreadable(m, StepsUnder(m, c, m.steps), BadNamed(m.bad, c.bad).value)
  }

  ghost predicate Undecided(m: Model, why: Refusal)
    requires |m.lo| == |m.hi|
  {
    || Excused(m, m.steps, why)
    || (exists i :: 0 <= i < |m.controls| && Excused(m, StepsUnder(m, m.controls[i], m.steps), why))
    || (why.Unreadable? && SomeBadUnreadable(m))
  }

  /** The findings are exactly the model's, read off its graph. */
  ghost predicate Findings(m: Model, fails: seq<Finding>) {
    && (exists G :: FoundIn(m, G, fails))
    && ControlReport(m, fails, |m.controls|)
  }

  ghost predicate FoundIn(m: Model, G: Graph, fails: seq<Finding>) {
    && IsGraphOf(m, m.steps, G) && (forall s :: Reachable(G, s) ==> G.succ(s).Some?)
    && RangeReport(m, G, fails) && BadReport(m, G, fails, |m.bad|)
  }

  /** One model's reading: its findings, or why there are none to be had. */
  method CheckModel(m: Model) returns (r: Outcome<seq<Finding>>)
    requires |m.lo| == |m.hi|
    ensures match r
            case Done(fails) => Findings(m, fails)
            case Refused(why) => Undecided(m, why)
  {
    var rep := ExploreModel(m, m.steps);
    if rep.Refused? { return Refused(rep.why); }
    ghost var G :| IsGraphOf(m, m.steps, G) && ExactReport(m, m.steps, G, rep.value);
    var ranges := RangeFindings(m, rep.value, G);
    var bads := BadFindings(m, rep.value, G);
    if bads.None? { return Refused(Unreadable); }
    var controls := ControlFindings(m);
    if controls.Refused? { return Refused(controls.why); }
    Together(m, G, ranges, bads.value, controls.value);
    forall s | Reachable(G, s) ensures G.succ(s).Some? { var n :| Reaches(G, s, n); }
    assert FoundIn(m, G, ranges + bads.value + controls.value);
    r := Done(ranges + bads.value + controls.value);
  }

  method RangeFindings(m: Model, rep: Report, ghost G: Graph) returns (fails: seq<Finding>)
    requires ExactReport(m, m.steps, G, rep)
    ensures RangeReport(m, G, fails) && forall f :: f in fails ==> f.RangeBlocks?
  {
    fails := BlockedFindings(m.steps, rep.blocked);
    BlockedAre(m, G, rep, fails);
  }

  /** The blocked steps in file order, each once. */
  method BlockedFindings(steps: seq<Step>, blocked: map<StepKey, nat>) returns (fails: seq<Finding>)
    ensures forall f ::
              f in fails <==>
              f.RangeBlocks? && f.key in blocked && f.v == blocked[f.key] && KeyAmong(steps, |steps|, f.key)
  {
    fails := [];
    var i := 0;
    while i < |steps|
      invariant 0 <= i <= |steps|
      invariant forall f ::
                  f in fails <==>
                  f.RangeBlocks? && f.key in blocked && f.v == blocked[f.key] && KeyAmong(steps, i, f.key)
    {
      var key := (steps[i].thread, steps[i].name);
      assert KeyOf(steps[i], key);
      if key in blocked && RangeBlocks(key, blocked[key]) !in fails {
        fails := fails + [RangeBlocks(key, blocked[key])];
      }
      i := i + 1;
    }
  }

  ghost predicate KeyAmong(steps: seq<Step>, n: nat, key: StepKey)
    requires n <= |steps|
  {
    exists i :: 0 <= i < n && KeyOf(steps[i], key)
  }

  lemma BlockedAre(m: Model, G: Graph, rep: Report, fails: seq<Finding>)
    requires ExactReport(m, m.steps, G, rep)
    requires forall f ::
               f in fails <==>
               f.RangeBlocks? && f.key in rep.blocked && f.v == rep.blocked[f.key]
               && KeyAmong(m.steps, |m.steps|, f.key)
    ensures RangeReport(m, G, fails)
  {
    forall key, v | RangeBlocks(key, v) in fails ensures Blocks(m, G, key, v) {
      var s :| s in rep.dist && LeavesAt(m, m.steps, key, s, v);
      ReachedHere(m, m.steps, G, rep, s);
      forall s1, u | Reachable(G, s1) && LeavesAt(m, m.steps, key, s1, u) ensures v <= u { var n :| Reaches(G, s1, n); }
    }
    forall key, v | Blocks(m, G, key, v) ensures RangeBlocks(key, v) in fails {
      var s :| Reachable(G, s) && LeavesAt(m, m.steps, key, s, v);
      var n :| Reaches(G, s, n);
      assert s in rep.dist;
      var s1 :| s1 in rep.dist && LeavesAt(m, m.steps, key, s1, rep.blocked[key]);
      ReachedHere(m, m.steps, G, rep, s1);
      var f := RangeBlocks(key, v);
      assert f.v == rep.blocked[f.key];
    }
  }

  method BadFindings(m: Model, rep: Report, ghost G: Graph) returns (fails: Option<seq<Finding>>)
    requires IsGraphOf(m, m.steps, G) && ExactReport(m, m.steps, G, rep)
    ensures fails.Some? ==> BadReport(m, G, fails.value, |m.bad|) && forall f :: f in fails.value ==> f.BadReachable?
    ensures fails.None? ==> exists j :: 0 <= j < |m.bad| && BadUnreadable(m, m.steps, m.bad[j].1)
  {
    var fs: seq<Finding> := [];
    var i := 0;
    while i < |m.bad|
      invariant 0 <= i <= |m.bad| && BadReport(m, G, fs, i) && forall f :: f in fs ==> f.BadReachable?
    {
      var hit, within := Hits(rep, m.bad[i].1, G, m, m.steps);
      if hit.None? {
        assert BadUnreadable(m, m.steps, m.bad[i].1);
        return None;
      }
      NextBad(m, G, fs, i, hit.value, within);
      if hit.value.Some? { fs := fs + [BadReachable(m.bad[i].0, hit.value.value.0, hit.value.value.1, within)]; }
      i := i + 1;
    }
    fails := Some(fs);
  }

  lemma NextBad(m: Model, G: Graph, fs: seq<Finding>, i: nat, hit: Option<(nat, nat)>, within: bool)
    requires i < |m.bad| && BadReport(m, G, fs, i)
    requires if hit.None? then Unreached(G, m.bad[i].1) else BadExact(m, G, i, hit.value.0, hit.value.1, within)
    ensures BadReport(m, G, if hit.None? then fs
            else fs + [BadReachable(m.bad[i].0, hit.value.0, hit.value.1, within)], i + 1)
  {
    var fs1 := if hit.None? then fs else fs + [BadReachable(m.bad[i].0, hit.value.0, hit.value.1, within)];
    forall j | 0 <= j < i + 1
      ensures Unreached(G, m.bad[j].1)
              || exists d, c, w :: BadReachable(m.bad[j].0, d, c, w) in fs1 && BadExact(m, G, j, d, c, w)
    {
      if j < i && !Unreached(G, m.bad[j].1) {
        var d, c, w :| BadReachable(m.bad[j].0, d, c, w) in fs && BadExact(m, G, j, d, c, w);
        assert BadReachable(m.bad[j].0, d, c, w) in fs1;
      } else if j == i && hit.Some? {
        assert fs1[|fs|] == BadReachable(m.bad[i].0, hit.value.0, hit.value.1, within);
      }
    }
  }

  method ControlFindings(m: Model) returns (r: Outcome<seq<Finding>>)
    requires |m.lo| == |m.hi|
    ensures match r
            case Done(fails) =>
              ControlReport(m, fails, |m.controls|)
              && forall f :: f in fails ==> f.NoSuchBad? || f.ControlUnreachable?
            case Refused(why) => Undecided(m, why)
  {
    var fs: seq<Finding> := [];
    var i := 0;
    while i < |m.controls|
      invariant 0 <= i <= |m.controls| && ControlReport(m, fs, i)
                && forall f :: f in fs ==> f.NoSuchBad? || f.ControlUnreachable?
    {
      var one := ControlFinding(m, i);
      if one.Refused? { return Refused(one.why); }
      if one.value.None? {
        NotReported(m, fs, i);
      } else {
        MoreReported(m, fs, i, one.value.value);
        fs := fs + [one.value.value];
      }
      i := i + 1;
    }
    r := Done(fs);
  }

  /** What there is to say of a control's answer. */
  ghost predicate ControlAnswer(m: Model, c: Control, r: Option<Finding>) {
    if r.None? then Witnessed(m, c) else Reports(m, c, r.value)
  }

  /** One control: its model is searched, and it bites or is reported. */
  method ControlFinding(m: Model, i: nat) returns (r: Outcome<Option<Finding>>)
    requires |m.lo| == |m.hi| && i < |m.controls|
    ensures match r
            case Done(f) => ControlAnswer(m, m.controls[i], f)
            case Refused(why) => Undecided(m, why)
  {
    var c := m.controls[i];
    var e := BadNamed(m.bad, c.bad);
    if e.None? { return Done(Some(NoSuchBad(c.name))); }
    var steps := StepsUnder(m, c, m.steps);
    var rep := ExploreModel(m, steps);
    if rep.Refused? { return Refused(rep.why); }
    ghost var G :| IsGraphOf(m, steps, G) && ExactReport(m, steps, G, rep.value);
    var hit, within := Hits(rep.value, e.value, G, m, steps);
    if hit.None? {
      assert BadUnreadable(m, steps, e.value);
      assert ControlUnreadable(m, m.controls[i]);
      return Refused(Unreadable);
    }
    if within { return Done(None); }
    assert MissedIn(m, G, e.value, hit.value);
    r := Done(Some(ControlUnreachable(c.name, c.bad, hit.value)));
  }

  lemma MoreReported(m: Model, fs: seq<Finding>, i: nat, f: Finding)
    requires i < |m.controls| && ControlReport(m, fs, i) && Reports(m, m.controls[i], f)
    ensures ControlReport(m, fs + [f], i + 1)
  {
    var fs1 := fs + [f];
    ReportedMisses(m, m.controls[i], f);
    assert fs1[|fs|] == f;
    forall j | 0 <= j < i + 1 && !Witnessed(m, m.controls[j])
      ensures exists f1 :: f1 in fs1 && Reports(m, m.controls[j], f1)
    {
      if j < i {
        var f1 :| f1 in fs && Reports(m, m.controls[j], f1);
        assert f1 in fs1;
      }
    }
    forall f1 | f1 in fs1 && (f1.NoSuchBad? || f1.ControlUnreachable?)
      ensures exists j :: 0 <= j < i + 1 && !Witnessed(m, m.controls[j]) && Reports(m, m.controls[j], f1)
    {
      if f1 != f {
        assert f1 in fs;
        var j :| 0 <= j < i && !Witnessed(m, m.controls[j]) && Reports(m, m.controls[j], f1);
      }
    }
  }

  lemma NotReported(m: Model, fs: seq<Finding>, i: nat)
    requires i < |m.controls| && ControlReport(m, fs, i) && Witnessed(m, m.controls[i])
    ensures ControlReport(m, fs, i + 1)
  {
    forall f | f in fs && (f.NoSuchBad? || f.ControlUnreachable?)
      ensures exists j :: 0 <= j < i + 1 && !Witnessed(m, m.controls[j]) && Reports(m, m.controls[j], f)
    {
      var j :| 0 <= j < i && !Witnessed(m, m.controls[j]) && Reports(m, m.controls[j], f);
    }
  }

  lemma Together(m: Model, G: Graph, ranges: seq<Finding>, bads: seq<Finding>, controls: seq<Finding>)
    requires RangeReport(m, G, ranges) && forall f :: f in ranges ==> f.RangeBlocks?
    requires BadReport(m, G, bads, |m.bad|) && forall f :: f in bads ==> f.BadReachable?
    requires ControlReport(m, controls, |m.controls|)
             && forall f :: f in controls ==> f.NoSuchBad? || f.ControlUnreachable?
    ensures var all := ranges + bads + controls;
            RangeReport(m, G, all) && BadReport(m, G, all, |m.bad|) && ControlReport(m, all, |m.controls|)
  {
    var all := ranges + bads + controls;
    InAll(ranges, bads, controls);
    RangeStill(m, G, ranges, all);
    BadStill(m, G, bads, all);
    ControlStill(m, controls, all);
  }

  lemma InAll(ranges: seq<Finding>, bads: seq<Finding>, controls: seq<Finding>)
    ensures forall f :: f in ranges + bads + controls <==> f in ranges || f in bads || f in controls
  {}

  lemma RangeStill(m: Model, G: Graph, ranges: seq<Finding>, all: seq<Finding>)
    requires RangeReport(m, G, ranges) && forall f :: f in all && f.RangeBlocks? <==> f in ranges && f.RangeBlocks?
    ensures RangeReport(m, G, all)
  {}

  lemma BadStill(m: Model, G: Graph, bads: seq<Finding>, all: seq<Finding>)
    requires BadReport(m, G, bads, |m.bad|) && forall f :: f in all && f.BadReachable? <==> f in bads && f.BadReachable?
    ensures BadReport(m, G, all, |m.bad|)
  {
    forall i | 0 <= i < |m.bad| && !Unreached(G, m.bad[i].1)
      ensures exists d, c, w :: BadReachable(m.bad[i].0, d, c, w) in all && BadExact(m, G, i, d, c, w)
    {
      var d, c, w :| BadReachable(m.bad[i].0, d, c, w) in bads && BadExact(m, G, i, d, c, w);
      assert BadReachable(m.bad[i].0, d, c, w) in all;
    }
    forall b, d, c, w | BadReachable(b, d, c, w) in all
      ensures exists i :: 0 <= i < |m.bad| && m.bad[i].0 == b && BadExact(m, G, i, d, c, w)
    {
      assert BadReachable(b, d, c, w) in bads;
    }
  }

  lemma ControlStill(m: Model, controls: seq<Finding>, all: seq<Finding>)
    requires ControlReport(m, controls, |m.controls|) && forall f :: f in controls ==> f in all
    requires forall f :: f in all && (f.NoSuchBad? || f.ControlUnreachable?) ==> f in controls
    ensures ControlReport(m, all, |m.controls|)
  {
    forall i | 0 <= i < |m.controls| && !Witnessed(m, m.controls[i])
      ensures exists f :: f in all && Reports(m, m.controls[i], f)
    {
      var f :| f in controls && Reports(m, m.controls[i], f);
      assert f in all;
    }
  }

  // --- what no finding means -----------------------------------------------------------------------------------

  /** A step taken with the ranges ignored. */
  predicate FreeEdge(m: Model, s: State, t: nat, s1: State) {
    exists i :: 0 <= i < |m.steps| && m.steps[i].thread == t && FreelyTo(Fire(m, m.steps[i], s), s1)
  }

  predicate FreelyTo(x: Tick, s1: State) {
    (x.Moves? || x.Leaves?) && x.to == s1
  }

  predicate FreeRun(m: Model, ss: seq<State>, ts: seq<nat>)
    requires |m.lo| == |m.hi|
  {
    |ss| == |ts| + 1 && Initial(m, ss[0]) && forall i :: 0 <= i < |ts| ==> FreeEdge(m, ss[i], ts[i], ss[i + 1])
  }

  lemma {:induction false} SuccHas(m: Model, steps: seq<Step>, n: nat, i: nat, s: State)
    requires i < n <= |steps| && Fire(m, steps[i], s).Moves? && Succ(m, steps[..n], s).Some?
    ensures (steps[i].thread, Fire(m, steps[i], s).to) in Succ(m, steps[..n], s).value
    decreases n
  {
    assert steps[..n][..n - 1] == steps[..n - 1];
    if i < n - 1 {
      SuccHas(m, steps, n - 1, i, s);
    } else {
      var moves := Succ(m, steps[..n], s).value;
      assert moves[|moves| - 1] == (steps[i].thread, Fire(m, steps[i], s).to);
    }
  }

  /** Where no step leaves its range, a step with the ranges ignored is a step. */
  lemma FreeIsEdge(m: Model, G: Graph, s: State, t: nat, s1: State)
    requires |m.lo| == |m.hi| && IsGraph(m, m.steps, G) && Reachable(G, s) && G.succ(s).Some? && FreeEdge(m, s, t, s1)
    requires forall key, v :: !LeavesAt(m, m.steps, key, s, v)
    ensures Edge(G, s, t, s1)
  {
    var i :| 0 <= i < |m.steps| && m.steps[i].thread == t && FreelyTo(Fire(m, m.steps[i], s), s1);
    var x, key := Fire(m, m.steps[i], s), (m.steps[i].thread, m.steps[i].name);
    if x.Leaves? {
      assert KeyOf(m.steps[i], key);
      assert LeavesAt(m, m.steps, key, s, x.v);
    }
    assert m.steps[..|m.steps|] == m.steps;
    SuccHas(m, m.steps, |m.steps|, i, s);
  }

  /** A step that leaves its range from a reachable state is reported. */
  lemma LeavingReported(m: Model, G: Graph, fails: seq<Finding>, key: StepKey, s: State, v: nat)
    requires RangeReport(m, G, fails) && Reachable(G, s) && LeavesAt(m, m.steps, key, s, v)
    ensures exists least :: RangeBlocks(key, least) in fails
  {
    var least := LeastBlock(m, G, key, s, v);
    assert RangeBlocks(key, least) in fails;
  }

  lemma LeastBlock(m: Model, G: Graph, key: StepKey, s: State, v: nat) returns (least: nat)
    requires Reachable(G, s) && LeavesAt(m, m.steps, key, s, v)
    ensures Blocks(m, G, key, least)
    decreases v
  {
    if u: nat, s1 :| u < v && Reachable(G, s1) && LeavesAt(m, m.steps, key, s1, u) {
      least := LeastBlock(m, G, key, s1, u);
    } else {
      least := v;
    }
  }

  lemma {:induction false} FreeIsRun(m: Model, G: Graph, ss: seq<State>, ts: seq<nat>, n: nat)
    requires |m.lo| == |m.hi| && IsGraph(m, m.steps, G) && RangeReport(m, G, []) && FreeRun(m, ss, ts) && n <= |ts|
    requires forall s :: Reachable(G, s) ==> G.succ(s).Some?
    ensures IsRun(G, ss[..n + 1], ts[..n]) && Reachable(G, ss[n])
    decreases n
  {
    if n == 0 {
      ReachesInit(G, ss[0]);
    } else {
      FreeIsRun(m, G, ss, ts, n - 1);
      var s := ss[n - 1];
      forall key, v | LeavesAt(m, m.steps, key, s, v) ensures false { LeavingReported(m, G, [], key, s, v); }
      FreeIsEdge(m, G, ss[n - 1], ts[n - 1], ss[n]);
      PrefixMore(G, ss, ts, n);
    }
  }

  /** One more step of a prefix that is a run. */
  lemma PrefixMore(G: Graph, ss: seq<State>, ts: seq<nat>, n: nat)
    requires 0 < n <= |ts| < |ss| && IsRun(G, ss[..n], ts[..n - 1]) && Edge(G, ss[n - 1], ts[n - 1], ss[n])
    ensures IsRun(G, ss[..n + 1], ts[..n]) && Reachable(G, ss[n])
  {
    RunMore(G, ss[..n], ts[..n - 1], ts[n - 1], ss[n]);
    assert ss[..n] + [ss[n]] == ss[..n + 1] && ts[..n - 1] + [ts[n - 1]] == ts[..n];
    assert ss[..n + 1][n] == ss[n];
    assert Reaches(G, ss[n], n);
  }

  /** No finding: in no state of any run, even with the ranges ignored, does a bad predicate hold; and every
      control bites. */
  lemma Clean(m: Model)
    requires |m.lo| == |m.hi| && Findings(m, [])
    ensures forall ss, ts, i, j :: FreeRun(m, ss, ts) && 0 <= i < |ss| && 0 <= j < |m.bad| ==> !Holds(m.bad[j].1, ss[i])
    ensures forall j :: 0 <= j < |m.controls| ==> Witnessed(m, m.controls[j])
  {
    var G :| FoundIn(m, G, []);
    forall ss, ts, i, j | FreeRun(m, ss, ts) && 0 <= i < |ss| && 0 <= j < |m.bad| ensures !Holds(m.bad[j].1, ss[i]) {
      FreeIsRun(m, G, ss, ts, i);
      assert Unreached(G, m.bad[j].1);
    }
  }

  /** The initial states are the assignments in range that satisfy `init` exactly when its pins are in range, or
      there are none. */
  lemma PinsInRange(m: Model)
    requires |m.lo| == |m.hi|
    ensures (forall s :: Initial(m, s) <==> Ranged(m, s) && Holds(m.init, s))
       <==> ((forall v :: v in Pins(m) && v < |m.lo| ==> m.lo[v] <= Pins(m)[v] <= m.hi[v])
           || (forall s :: !Initial(m, s)))
  {
    forall s | Ranged(m, s) && Holds(m.init, s) ensures Initial(m, s) {
      forall v | v in Pins(m) && v < |m.lo| ensures s[v] == Pins(m)[v] { PinHolds(m, s, v); }
    }
    if (forall s :: Initial(m, s) <==> Ranged(m, s) && Holds(m.init, s)) && exists s :: Initial(m, s) {
      var s :| Initial(m, s);
      forall v | v in Pins(m) && v < |m.lo| ensures m.lo[v] <= Pins(m)[v] <= m.hi[v] { assert StartValue(m, v, s[v]); }
    }
  }

  /** A variable pinned to 1 over the range 0 to 0 starts at 1. */
  lemma PinOutside(m: Model)
    requires m.lo == [0] && m.hi == [0] && m.init == App(And, [App(Equal, [Name(0), Num(1)])])
    ensures Initial(m, [1]) && !Ranged(m, [1])
  {
    var c, s := App(Equal, [Name(0), Num(1)]), [1];
    assert [c][..0] == [] && PinOf(c, 1) == Some((0, 1));
    assert Pins(m) == map[0 := 1];
    assert c.args[1..] == [Num(1)] && c.args[1..][1..] == [];
    assert SameAs(1, [Num(1)], s) == Some(1);
    assert Eval(c, s) == Some(1);
    assert [c][1..] == [] && AllTrue([c], s) == Some(1);
  }

  /** Reached in `n` steps and within the thread changes. */
  ghost predicate WithinSteps(m: Model, G: Graph, e: Exp, n: nat) {
    exists s, k: nat, c: nat :: k <= n && c <= m.preempt && Holds(e, s) && EndsIn(G, s, k, c)
  }

  /** A depth of 0 is read as 1; that changes the answer exactly when no initial state satisfies the predicate
      and one step reaches it. */
  lemma DepthRead(m: Model, G: Graph, e: Exp)
    ensures (ReachedWithin(m, G, e) <==> WithinSteps(m, G, e, m.depth))
       <==> !(m.depth == 0 && (forall s :: s in G.inits ==> !Holds(e, s)) && WithinSteps(m, G, e, 1))
  {
    if m.depth == 0 {
      if WithinSteps(m, G, e, 0) {
        var s, k: nat, c: nat :| k <= 0 && c <= m.preempt && Holds(e, s) && EndsIn(G, s, k, c);
        var ss, ts :| IsRun(G, ss, ts) && |ts| == k && ss[k] == s && Changes(ts) == c;
      }
      if s :| s in G.inits && Holds(e, s) {
        assert IsRun(G, [s], []) && [s][0] == s && Changes([]) == 0;
        assert EndsIn(G, s, 0, 0);
      }
    }
  }

  /** One variable, 0 at first and then 1: with depth 0, the predicate that it is 1 counts as reached. */
  lemma DepthZero(m: Model, G: Graph)
    requires m.lo == [0] && m.hi == [1] && m.depth == 0 && m.steps == [Step(0, "go", None, [(0, Num(1))])]
    requires G == GraphOf(m, m.steps, {[0]})
    ensures var e := App(Equal, [Name(0), Num(1)]); ReachedWithin(m, G, e) && !WithinSteps(m, G, e, 0)
  {
    var e, st := App(Equal, [Name(0), Num(1)]), m.steps[0];
    assert e.args[1..] == [Num(1)] && e.args[1..][1..] == [];
    assert SameAs(1, [Num(1)], [1]) == Some(1) && SameAs(0, [Num(1)], [0]) == Some(0);
    assert After(st.next, [0], 0) == Some([]) && Binding(st.next, 0) == Some(Num(1));
    assert Eval(Num(1), [0]) == Some(1) && [] + [1] == [1];
    assert After(st.next, [0], 1) == Some([1]);
    assert Fire(m, st, [0]) == Moves([1]);
    assert m.steps[..0] == [];
    assert Succ(m, m.steps, [0]) == Some([] + [(0, [1])]);
    EndsFirst(G, [0], 0, [1]);
    assert EndsAt(G, ([1], 0), 1, 0);
    var ss, ts :| IsRun(G, ss, ts) && |ts| == 1 && ss[1] == [1] && ts[0] == 0 && Changes(ts) == 0;
    assert EndsIn(G, [1], 1, 0) && Holds(e, [1]);
    DepthRead(m, G, e);
    forall s | s in G.inits ensures !Holds(e, s) { assert s == [0]; }
  }

  /** A state that satisfies `init` has its pinned values. */
  lemma PinHolds(m: Model, s: State, v: nat)
    requires v in Pins(m) && Holds(m.init, s) && v < |s| == |m.lo|
    ensures s[v] == Pins(m)[v]
  {
    PinnedHolds(m.init.args, |m.lo|, s, v);
  }

  lemma {:induction false} PinnedHolds(args: seq<Exp>, n: nat, s: State, v: nat)
    requires v in Pinned(args, n) && |s| == n && AllTrue(args, s).Some? && AllTrue(args, s).value != 0
    ensures v < n && s[v] == Pinned(args, n)[v]
    decreases |args|
  {
    var k := |args| - 1;
    var c := args[k];
    TrueEach(args, s, k);
    if v in Pinned(args[..k], n) {
      TruePrefix(args, s, k);
      PinnedHolds(args[..k], n, s, v);
    } else {
      var x := Pinned(args, n)[v];
      assert PinOf(c, n) == Some((v, x));
      PinTrue(c, v, x, s);
    }
  }

  lemma PinTrue(c: Exp, v: nat, x: int, s: State)
    requires v < |s| && c.App? && c.op.Equal? && |c.args| == 2 && c.args[0] == Name(v) && c.args[1] == Num(x)
    ensures Eval(c, s) == Some(if s[v] == x then 1 else 0)
  {
    var rest := c.args[1..];
    assert rest == [Num(x)] && rest[1..] == [];
    assert Eval(c, s) == SameAs(s[v], rest, s);
  }

  lemma {:induction false} TrueEach(args: seq<Exp>, s: State, i: nat)
    requires i < |args| && AllTrue(args, s).Some? && AllTrue(args, s).value != 0
    ensures Holds(args[i], s)
  {
    if i > 0 { TrueEach(args[1..], s, i - 1); }
  }

  lemma {:induction false} TruePrefix(args: seq<Exp>, s: State, n: nat)
    requires n <= |args| && AllTrue(args, s).Some? && AllTrue(args, s).value != 0
    ensures AllTrue(args[..n], s).Some? && AllTrue(args[..n], s).value != 0
  {
    if n > 0 {
      TruePrefix(args[1..], s, n - 1);
      assert args[..n][1..] == args[1..][..n - 1];
    }
  }

  /** A conjunct that pins: an equation of a variable, on the left, with a numeral. */
  predicate PinsTo(c: Exp, v: nat, x: int) {
    c == App(Equal, [Name(v), Num(x)])
  }

  /** The pins of a model are those of the conjuncts of `init`; of two for one variable the first counts. */
  lemma PinsAre(m: Model, v: nat, x: int)
    ensures v in Pins(m) && Pins(m)[v] == x <==>
              && m.init.App? && m.init.op.And? && v < |m.lo|
              && exists i :: 0 <= i < |m.init.args| && PinsTo(m.init.args[i], v, x)
                   && forall j, y :: 0 <= j < i ==> !PinsTo(m.init.args[j], v, y)
  {
    if m.init.App? && m.init.op.And? { PinnedAre(m.init.args, |m.lo|, v, x); }
  }

  lemma {:induction false} PinnedAre(args: seq<Exp>, n: nat, v: nat, x: int)
    ensures v in Pinned(args, n) <==> v < n && exists i, y :: 0 <= i < |args| && PinsTo(args[i], v, y)
    ensures v in Pinned(args, n) && Pinned(args, n)[v] == x <==>
              v < n && exists i :: 0 <= i < |args| && PinsTo(args[i], v, x)
                              && forall j, y :: 0 <= j < i ==> !PinsTo(args[j], v, y)
  {
    if args != [] {
      var k := |args| - 1;
      PinnedAre(args[..k], n, v, x);
      assert forall i :: 0 <= i < k ==> args[..k][i] == args[i];
      PinOfIs(args[k], n, v);
    }
  }

  lemma PinOfIs(c: Exp, n: nat, v: nat)
    ensures forall x :: PinOf(c, n) == Some((v, x)) <==> v < n && PinsTo(c, v, x)
  {
    if PinOf(c, n).Some? { assert c.args == [c.args[0], c.args[1]]; }
  }
}
