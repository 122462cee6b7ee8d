/** How deep the floor's own calls can go: back edges are cut by a depth-first walk, and the deepest chain of
    what is left is weighed by frame sizes. */
module StackBound {
  /** Bytes a call pushes besides the callee's frame. */
  const RETURN_SLOT := 8
  const RESERVE_SLACK := 384

  /** The floor's functions in file order, by number: the functions each one calls, in order of first call, and
      its frame in bytes. `trap` is the number of the trap route; it is past the end when the floor has none. */
  datatype Floor = Floor(callees: seq<seq<nat>>, sizes: seq<nat>, trap: nat)

  datatype Reserve = Declared(bytes: nat) | Undeclared

  datatype Failure =
    | NoReserve
    | NoFrame(functions: seq<nat>)
    | Recurses(cycle: seq<nat>)
    | OverQuarter(total: nat, reserve: nat)

  datatype Report = Report(fails: seq<Failure>, worst: nat, path: seq<nat>, trap: nat, total: nat)

  predicate WellFormed(f: Floor) {
    && |f.sizes| == |f.callees|
    && (forall a, k :: 0 <= a < |f.callees| && 0 <= k < |f.callees[a]| ==> f.callees[a][k] < |f.callees|)
  }

  predicate Calls(f: Floor, a: nat, b: nat) {
    a < |f.callees| && b < |f.callees| && b in f.callees[a]
  }

  /** A chain of calls none of which is in `cut`. */
  ghost predicate Chain(f: Floor, cut: set<(nat, nat)>, c: seq<nat>) {
    && 0 < |c|
    && (forall k :: 0 <= k < |c| ==> c[k] < |f.callees|)
    && (forall k :: 0 <= k < |c| - 1 ==> Calls(f, c[k], c[k + 1]) && (c[k], c[k + 1]) !in cut)
  }

  ghost predicate Cycle(f: Floor, cut: set<(nat, nat)>, c: seq<nat>) {
    Chain(f, cut, c) && |c| > 1 && c[0] == c[|c| - 1]
  }

  /** A call that closes a cycle: some chain of calls leads from the function called to the caller. */
  ghost predicate Closing(f: Floor, e: (nat, nat)) {
    Calls(f, e.0, e.1) && exists c :: Chain(f, {}, c) && c[0] == e.1 && c[|c| - 1] == e.0
  }

  /** The calls into the trap route that close a cycle. */
  ghost function TrapCut(f: Floor): set<(nat, nat)> {
    set a | a in Below(|f.callees|) && Closing(f, (a, f.trap)) :: (a, f.trap)
  }

  /** Bytes of stack a chain takes: its frames, each with its return address. */
  function Weight(f: Floor, c: seq<nat>): nat
    requires |f.sizes| == |f.callees| && forall k :: 0 <= k < |c| ==> c[k] < |f.callees|
  {
    if c == [] then 0 else f.sizes[c[0]] + 8 + Weight(f, c[1..])
  }

  lemma {:induction false} WeightSplits(f: Floor, a: seq<nat>, b: seq<nat>)
    requires |f.sizes| == |f.callees| && (forall k :: 0 <= k < |a + b| ==> (a + b)[k] < |f.callees|)
    requires forall k :: 0 <= k < |a| ==> a[k] < |f.callees|
    requires forall k :: 0 <= k < |b| ==> b[k] < |f.callees|
    ensures Weight(f, a + b) == Weight(f, a) + Weight(f, b)
  {
    if a == [] {
      assert a + b == b;
    } else {
      assert (a + b)[1..] == a[1..] + b;
      WeightSplits(f, a[1..], b);
    }
  }

  /** Finish order: every call that is not cut goes to a function finished earlier. */
  ghost predicate Ordered(f: Floor, cut: set<(nat, nat)>, fin: seq<nat>) {
    && Once(fin)
    && forall k, b: nat :: 0 <= k < |fin| && Calls(f, fin[k], b) && (fin[k], b) !in cut ==> b in fin[..k]
  }

  function Rank(fin: seq<nat>, a: nat): (r: nat)
    requires a in fin
    ensures r < |fin| && fin[r] == a
  {
    if fin[|fin| - 1] == a then |fin| - 1 else Rank(fin[..|fin| - 1], a)
  }

  lemma RankDrops(f: Floor, cut: set<(nat, nat)>, fin: seq<nat>, a: nat, b: nat)
    requires Ordered(f, cut, fin) && a in fin && Calls(f, a, b) && (a, b) !in cut
    ensures b in fin && Rank(fin, b) < Rank(fin, a)
  {
    var k := Rank(fin, a);
    assert b in fin[..k];
    var j :| 0 <= j < k && fin[j] == b;
    assert Rank(fin, b) == j;
  }

  lemma {:induction false} ChainDrops(f: Floor, cut: set<(nat, nat)>, fin: seq<nat>, c: seq<nat>)
    requires Ordered(f, cut, fin) && Chain(f, cut, c) && c[0] in fin
    ensures c[|c| - 1] in fin && (|c| > 1 ==> Rank(fin, c[|c| - 1]) < Rank(fin, c[0]))
    decreases |c|
  {
    if |c| > 1 {
      assert Calls(f, c[0], c[0 + 1]);
      RankDrops(f, cut, fin, c[0], c[1]);
      TailChain(f, cut, c);
      ChainDrops(f, cut, fin, c[1..]);
    }
  }

  lemma TailChain(f: Floor, cut: set<(nat, nat)>, c: seq<nat>)
    requires Chain(f, cut, c) && |c| > 1
    ensures Chain(f, cut, c[1..])
  {
    forall k | 0 <= k < |c[1..]| - 1
      ensures Calls(f, c[1..][k], c[1..][k + 1]) && (c[1..][k], c[1..][k + 1]) !in cut
    {
      assert Calls(f, c[k + 1], c[k + 1 + 1]);
    }
  }

  lemma SuffixChain(f: Floor, cut: set<(nat, nat)>, c: seq<nat>, i: nat)
    requires Chain(f, cut, c) && i < |c|
    ensures Chain(f, cut, c[i..])
  {
    forall k | 0 <= k < |c[i..]| - 1
      ensures Calls(f, c[i..][k], c[i..][k + 1]) && (c[i..][k], c[i..][k + 1]) !in cut
    {
      assert Calls(f, c[i + k], c[i + k + 1]);
    }
  }

  /** What is left after the cut has no cycle. */
  lemma NoCycle(f: Floor, cut: set<(nat, nat)>, fin: seq<nat>, c: seq<nat>)
    requires Ordered(f, cut, fin) && forall a: nat :: a < |f.callees| ==> a in fin
    ensures !Cycle(f, cut, c)
  {
    if Cycle(f, cut, c) {
      ChainDrops(f, cut, fin, c);
    }
  }

  // ------------------------------------------------------ the order of first visits

  predicate Once(s: seq<nat>) {
    forall j, k :: 0 <= j < k < |s| ==> s[j] != s[k]
  }

  ghost function Unseen(f: Floor, met: seq<nat>): set<nat> {
    set a | a in Below(|f.callees|) && a !in met
  }

  /** The functions in the order a depth-first walk first meets them, from `a`, after those in `met`. */
  ghost function Visit(f: Floor, a: nat, met: seq<nat>): (r: seq<nat>)
    requires WellFormed(f) && a < |f.callees|
    ensures met <= r
    decreases Unseen(f, met), 0, 0
  {
    if a in met then met
    else
      assert a in Unseen(f, met) && a !in Unseen(f, met + [a]);
      VisitTo(f, f.callees[a], |f.callees[a]|, met + [a])
  }

  /** ... and from the first k of `gs`, in turn. */
  ghost function VisitTo(f: Floor, gs: seq<nat>, k: nat, met: seq<nat>): (r: seq<nat>)
    requires WellFormed(f) && k <= |gs| && forall i :: 0 <= i < |gs| ==> gs[i] < |f.callees|
    ensures met <= r
    decreases Unseen(f, met), 1, k
  {
    if k == 0 then met
    else
      var r := VisitTo(f, gs, k - 1, met);
      assert Unseen(f, r) <= Unseen(f, met);
      assert Unseen(f, r) == Unseen(f, met) || Unseen(f, r) < Unseen(f, met);
      Visit(f, gs[k - 1], r)
  }

  /** ... from every function in file order. */
  ghost function Met(f: Floor): seq<nat>
    requires WellFormed(f)
  {
    VisitTo(f, InOrder(|f.callees|), |f.callees|, [])
  }

  function InOrder(n: nat): (all: seq<nat>)
    ensures |all| == n && forall a :: 0 <= a < n ==> all[a] == a
  {
    seq(n, a => a)
  }

  /** A cycle of calls from a function other than the trap route, none of its functions met before that one. */
  ghost predicate Leads(f: Floor, met: seq<nat>, c: seq<nat>) {
    Cycle(f, {}, c) && c[0] != f.trap && First(met, c)
  }

  ghost predicate First(met: seq<nat>, c: seq<nat>) {
    c != [] && forall k :: 0 <= k < |c| ==> NoLater(met, c[0], c[k])
  }

  predicate At(met: seq<nat>, i: int, a: nat) {
    0 <= i < |met| && met[i] == a
  }

  ghost predicate NoLater(met: seq<nat>, a: nat, b: nat) {
    exists i, j :: i <= j && At(met, i, a) && At(met, j, b)
  }

  lemma NoLaterStays(met: seq<nat>, t: seq<nat>, a: nat, b: nat)
    requires met <= t && NoLater(met, a, b)
    ensures NoLater(t, a, b)
  {
    var i, j :| i <= j && At(met, i, a) && At(met, j, b);
    assert At(t, i, a) && At(t, j, b);
  }

  lemma LeadsStays(f: Floor, met: seq<nat>, t: seq<nat>, c: seq<nat>)
    requires met <= t && Leads(f, met, c)
    ensures Leads(f, t, c)
  {
    forall k | 0 <= k < |c|
      ensures NoLater(t, c[0], c[k])
    {
      NoLaterStays(met, t, c[0], c[k]);
    }
  }

  /** The walk's stack is in the order its functions were met. */
  ghost predicate Climbs(met: seq<nat>, stack: seq<nat>) {
    forall i, j {:trigger NoLater(met, stack[i], stack[j])} :: 0 <= i <= j < |stack|
        ==> NoLater(met, stack[i], stack[j])
  }

  lemma ClimbsOn(met: seq<nat>, stack: seq<nat>, a: nat)
    requires Climbs(met, stack)
    ensures Climbs(met + [a], stack + [a])
  {
    var t := met + [a];
    assert At(t, |met|, a);
    forall i, j | 0 <= i <= j < |stack + [a]|
      ensures NoLater(t, (stack + [a])[i], (stack + [a])[j])
    {
      if j < |stack| {
        assert NoLater(met, stack[i], stack[j]);
        NoLaterStays(met, t, stack[i], stack[j]);
      } else if i < |stack| {
        assert NoLater(met, stack[i], stack[i]);
        var k :| At(met, k, stack[i]);
        assert At(t, k, stack[i]);
      }
    }
  }

  lemma ClimbsLess(met: seq<nat>, stack: seq<nat>, a: nat)
    requires Climbs(met, stack + [a])
    ensures Climbs(met, stack)
  {
    forall i, j | 0 <= i <= j < |stack|
      ensures NoLater(met, stack[i], stack[j])
    {
      assert NoLater(met, (stack + [a])[i], (stack + [a])[j]);
    }
  }

  /** What is met between two functions, the second of which finished no later, finished no later either. */
  ghost predicate Between(met: seq<nat>, fin: seq<nat>, a: nat, b: nat, c: nat, p: nat) {
    0 <= p < |fin| && fin[p] == a && NoLater(met, a, b) && NoLater(met, b, c) && c in fin[..p + 1] ==> b in fin[..p + 1]
  }

  ghost predicate Nested(met: seq<nat>, fin: seq<nat>) {
    forall a, b, c, p :: Between(met, fin, a, b, c, p)
  }

  /** A cut call goes back to a function met no later, and finished no earlier. */
  ghost predicate Back(met: seq<nat>, fin: seq<nat>, e: (nat, nat)) {
    && NoLater(met, e.1, e.0)
    && forall p :: 0 <= p < |fin| && fin[p] == e.1 ==> e.0 in fin[..p + 1]
  }

  ghost predicate Backs(met: seq<nat>, fin: seq<nat>, back: set<(nat, nat)>) {
    forall e {:trigger Back(met, fin, e)} :: e in back ==> Back(met, fin, e)
  }

  /** A function is met: it is in no relation to what has finished. */
  lemma MeetKeeps(met: seq<nat>, fin: seq<nat>, back: set<(nat, nat)>, a: nat)
    requires Nested(met, fin) && Backs(met, fin, back) && a !in met && forall x :: x in fin ==> x in met
    ensures Nested(met + [a], fin) && Backs(met + [a], fin, back)
  {
    var t := met + [a];
    forall x, b, c, p | 0 <= p < |fin| && fin[p] == x && NoLater(t, x, b) && NoLater(t, b, c) && c in fin[..p + 1]
      ensures b in fin[..p + 1]
    {
      NoLaterOld(met, a, b, c);
      NoLaterOld(met, a, x, b);
      assert Between(met, fin, x, b, c, p);
    }
    forall e | e in back
      ensures Back(t, fin, e)
    {
      assert Back(met, fin, e);
      NoLaterStays(met, t, e.1, e.0);
    }
  }

  lemma NoLaterOld(met: seq<nat>, a: nat, b: nat, c: nat)
    requires a !in met && NoLater(met + [a], b, c) && c in met
    ensures NoLater(met, b, c) && b in met
  {
    var i, j :| i <= j && At(met + [a], i, b) && At(met + [a], j, c);
    assert At(met, i, b) && At(met, j, c);
  }

  /** The last function of the walk's stack finishes: all met after it have finished. */
  lemma FinishKeeps(met: seq<nat>, fin: seq<nat>, back: set<(nat, nat)>, stack: seq<nat>, a: nat)
    requires Nested(met, fin) && Backs(met, fin, back) && Climbs(met, stack + [a]) && Once(met) && a !in fin
    requires forall x :: x in met <==> x in fin || x in stack + [a]
    ensures Nested(met, fin + [a]) && Backs(met, fin + [a], back)
  {
    var t := fin + [a];
    AfterTop(met, fin, stack, a);
    forall x, b, c, p | 0 <= p < |t| && t[p] == x && NoLater(met, x, b) && NoLater(met, b, c) && c in t[..p + 1]
      ensures b in t[..p + 1]
    {
      if p < |fin| {
        assert t[..p + 1] == fin[..p + 1];
        assert Between(met, fin, x, b, c, p);
      } else {
        assert t[..p + 1] == t;
      }
    }
    forall e | e in back
      ensures Back(met, t, e)
    {
      assert Back(met, fin, e);
      forall p | 0 <= p < |t| && t[p] == e.1
        ensures e.0 in t[..p + 1]
      {
        if p < |fin| { assert t[..p + 1] == fin[..p + 1]; } else { assert t[..p + 1] == t; }
      }
    }
  }

  lemma AfterTop(met: seq<nat>, fin: seq<nat>, stack: seq<nat>, a: nat)
    requires Climbs(met, stack + [a]) && Once(met) && forall x :: x in met <==> x in fin || x in stack + [a]
    ensures forall b :: NoLater(met, a, b) ==> b in fin + [a]
  {
    forall b | NoLater(met, a, b)
      ensures b in fin + [a]
    {
      if b !in fin {
        var i :| 0 <= i < |stack + [a]| && (stack + [a])[i] == b;
        assert NoLater(met, (stack + [a])[i], (stack + [a])[|stack|]);
        assert (stack + [a])[|stack|] == a;
        SamePlace(met, a, b);
      }
    }
  }

  lemma SamePlace(met: seq<nat>, a: nat, b: nat)
    requires Once(met) && NoLater(met, a, b) && NoLater(met, b, a)
    ensures a == b
  {
    var i, j :| i <= j && At(met, i, a) && At(met, j, b);
    var k, l :| k <= l && At(met, k, b) && At(met, l, a);
    assert i == l && j == k;
  }

  /** With every other cycle cut at the trap route only, no cycle leads from elsewhere. */
  lemma NoneLeads(f: Floor, met: seq<nat>, fin: seq<nat>, cut: set<(nat, nat)>, c: seq<nat>)
    requires Nested(met, fin) && Backs(met, fin, cut) && Ordered(f, cut, fin)
    requires (forall a: nat :: a < |f.callees| ==> a in fin) && forall e :: e in cut ==> e.1 == f.trap
    ensures !Leads(f, met, c)
  {
    if Leads(f, met, c) {
      var p := Rank(fin, c[0]);
      var k := |c| - 2;
      InsideFirst(f, met, fin, cut, c, p, k);
    }
  }

  /** Every function of the cycle finishes no later than its first. */
  lemma {:induction false} InsideFirst(f: Floor, met: seq<nat>, fin: seq<nat>, cut: set<(nat, nat)>, c: seq<nat>,
          p: nat, k: nat)
    requires Nested(met, fin) && Backs(met, fin, cut) && Ordered(f, cut, fin)
    requires Chain(f, {}, c) && First(met, c) && k < |c| && p < |fin| && fin[p] == c[0]
    ensures c[k] in fin[..p + 1]
    decreases k
  {
    if k > 0 {
      var a, b := c[k - 1], c[k - 1 + 1];
      InsideFirst(f, met, fin, cut, c, p, k - 1);
      assert Calls(f, a, b) && NoLater(met, c[0], c[k]);
      if (a, b) in cut {
        assert Back(met, fin, (a, b));
        assert Between(met, fin, c[0], b, a, p);
      } else {
        var q :| 0 <= q < p + 1 && fin[q] == a;
        assert Calls(f, fin[q], b);
        assert b in fin[..q];
      }
    }
  }

  // ------------------------------------------------------ the walk

  lemma Shown(stack: seq<nat>, a: nat)
    ensures forall b :: b in stack + [a] <==> b in stack || b == a
  {
  }

  /** A call back into the walk's stack closes a cycle. */
  lemma Closes(f: Floor, stack: seq<nat>, g: nat)
    requires Chain(f, {}, stack) && g in stack && Calls(f, stack[|stack| - 1], g)
    ensures Cycle(f, {}, stack[Index(stack, g)..] + [g])
  {
    var i := Index(stack, g);
    var c := stack[i..] + [g];
    forall k | 0 <= k < |c| - 1
      ensures Calls(f, c[k], c[k + 1])
    {
      if k < |c| - 2 { assert Calls(f, stack[i + k], stack[i + k + 1]); }
    }
  }

  lemma CallsBack(f: Floor, stack: seq<nat>, g: nat)
    requires Chain(f, {}, stack) && g in stack && Calls(f, stack[|stack| - 1], g)
    ensures Closing(f, (stack[|stack| - 1], g))
  {
    var i := Index(stack, g);
    SuffixChain(f, {}, stack, i);
    assert stack[i..][|stack| - i - 1] == stack[|stack| - 1];
  }

  /** ... that leads from the function called back. */
  lemma ClosesFirst(met: seq<nat>, stack: seq<nat>, g: nat)
    requires Climbs(met, stack) && g in stack
    ensures First(met, stack[Index(stack, g)..] + [g])
    ensures NoLater(met, g, stack[|stack| - 1])
  {
    var i := Index(stack, g);
    var c := stack[i..] + [g];
    assert NoLater(met, stack[i], stack[|stack| - 1]);
    forall k | 0 <= k < |c|
      ensures NoLater(met, c[0], c[k])
    {
      if k < |c| - 1 { assert NoLater(met, stack[i], stack[i + k]); }
      assert NoLater(met, stack[i], stack[i]);
    }
  }

  lemma Longer(f: Floor, stack: seq<nat>, g: nat)
    requires Chain(f, {}, stack) && Calls(f, stack[|stack| - 1], g)
    ensures Chain(f, {}, stack + [g])
  {
    var c := stack + [g];
    forall k | 0 <= k < |c| - 1
      ensures Calls(f, c[k], c[k + 1])
    {
      if k < |stack| - 1 { assert Calls(f, stack[k], stack[k + 1]); }
    }
  }

  lemma Finishes(f: Floor, cut: set<(nat, nat)>, fin: seq<nat>, a: nat)
    requires WellFormed(f) && a < |f.callees| && a !in fin && Ordered(f, cut, fin)
    requires forall j :: 0 <= j < |f.callees[a]| ==> (a, f.callees[a][j]) in cut || f.callees[a][j] in fin
    ensures Ordered(f, cut, fin + [a])
  {
    var longer := fin + [a];
    forall k, b: nat | 0 <= k < |longer| && Calls(f, longer[k], b) && (longer[k], b) !in cut
      ensures b in longer[..k]
    {
      assert k < |fin| ==> longer[..k] == fin[..k];
      assert k == |fin| ==> longer[..k] == fin;
    }
  }

  class Walker {
    const floor: Floor
    var state: map<nat, nat>     // 1 on the walk's stack, 2 finished
    var back: set<(nat, nat)>
    var fails: seq<Failure>
    ghost var met: seq<nat>
    ghost var fin: seq<nat>

    ghost predicate Valid(stack: seq<nat>)
      reads this
    {
      && WellFormed(floor) && Once(met)
      && (forall a :: a in met <==> a in state)
      && Climbs(met, stack) && Nested(met, fin) && Backs(met, fin, back)
      && (forall a :: a in state ==> a < |floor.callees| && (state[a] == 1 || state[a] == 2))
      && (forall a :: a in fin <==> a in state && state[a] == 2)
      && (forall a :: a in stack <==> a in state && state[a] == 1)
      && Ordered(floor, back, fin)
      && (forall e :: e in back ==> Closing(floor, e))
      && (fails == [] ==> forall e :: e in back ==> e.1 == floor.trap)
      && (forall k :: 0 <= k < |fails| ==> fails[k].Recurses? && Leads(floor, met, fails[k].cycle))
    }

    constructor (floor: Floor)
      requires WellFormed(floor)
      ensures Valid([]) && this.floor == floor && fails == [] && state == map[] && met == [] && fin == []
    {
      this.floor, state, back, fails, met, fin := floor, map[], {}, [], [], [];
    }

    /** A call into the walk's own stack is cut; only the trap route may close a cycle. */
    method Cut(f: nat, g: nat, stack: seq<nat>)
      requires Valid(stack) && Chain(floor, {}, stack) && stack[|stack| - 1] == f && g in stack && Calls(floor, f, g)
      modifies this`back, this`fails
      ensures Valid(stack) && (f, g) in back && old(back) <= back
    {
      Closes(floor, stack, g);
      CallsBack(floor, stack, g);
      ClosesFirst(met, stack, g);
      back := back + {(f, g)};
      if g != floor.trap {
        fails := fails + [Recurses(stack[Index(stack, g)..] + [g])];
      }
    }

    ghost predicate Left(todo: set<nat>)
      reads this
    {
      forall a: nat :: a < |floor.callees| && a !in state ==> a in todo
    }

    /** One step of the depth-first walk: `stack` is the chain of calls that led to f; only `todo` is left to
        meet. */
    method Walk(f: nat, stack: seq<nat>, ghost todo: set<nat>)
      requires Valid(stack) && f < |floor.callees| && f !in state && Chain(floor, {}, stack + [f]) && Left(todo)
      modifies this
      ensures Valid(stack) && f in fin && met == Visit(floor, f, old(met))
      ensures Grown(old(state), old(back), old(fin))
      decreases todo, 0
    {
      Meets(f, stack);
      CallAll(f, stack, todo - {f});
      Finish(f, stack);
    }

    method CallAll(f: nat, stack: seq<nat>, ghost todo: set<nat>)
      requires Valid(stack + [f]) && f < |floor.callees| && Chain(floor, {}, stack + [f]) && Left(todo)
      modifies this
      ensures Valid(stack + [f]) && forall j :: 0 <= j < |floor.callees[f]| ==> Followed(f, floor.callees[f][j])
      ensures met == VisitTo(floor, floor.callees[f], |floor.callees[f]|, old(met))
      ensures Grown(old(state), old(back), old(fin))
      decreases todo, 2
    {
      for k := 0 to |floor.callees[f]|
        invariant Valid(stack + [f]) && met == VisitTo(floor, floor.callees[f], k, old(met))
        invariant Grown(old(state), old(back), old(fin))
        invariant forall j :: 0 <= j < k ==> Followed(f, floor.callees[f][j])
      {
        Call(f, floor.callees[f][k], stack, todo);
      }
    }

    ghost predicate Followed(f: nat, g: nat)
      reads this
    {
      (f, g) in back || g in fin
    }

    /** One call of f's: cut if it goes back into the stack, and followed unless that was done before. */
    method Call(f: nat, g: nat, stack: seq<nat>, ghost todo: set<nat>)
      requires Valid(stack + [f]) && Chain(floor, {}, stack + [f]) && Calls(floor, f, g) && Left(todo)
      modifies this
      ensures Valid(stack + [f]) && Followed(f, g) && met == Visit(floor, g, old(met))
      ensures Grown(old(state), old(back), old(fin))
      decreases todo, 1
    {
      if g in state && state[g] == 1 {
        Cut(f, g, stack + [f]);
      } else if g !in state {
        Longer(floor, stack + [f], g);
        Walk(g, stack + [f], todo);
      }
    }

    /** All its calls cut or finished, f finishes, and leaves the stack. */
    method Finish(f: nat, stack: seq<nat>)
      requires Valid(stack + [f]) && f < |floor.callees| && f !in stack
      requires forall j :: 0 <= j < |floor.callees[f]| ==> Followed(f, floor.callees[f][j])
      modifies this`state, this`fin
      ensures Valid(stack) && state == old(state)[f := 2] && fin == old(fin) + [f]
    {
      Shown(stack, f);
      ClimbsLess(met, stack, f);
      Finishes(floor, back, fin, f);
      FinishKeeps(met, fin, back, stack, f);
      fin := fin + [f];
      state := state[f := 2];
    }

    /** f is met, and goes on the stack. */
    method Meets(f: nat, stack: seq<nat>)
      requires Valid(stack) && f < |floor.callees| && f !in state
      modifies this`state, this`met
      ensures Valid(stack + [f]) && state == old(state)[f := 1] && met == old(met) + [f]
    {
      Shown(stack, f);
      MeetKeeps(met, fin, back, f);
      ClimbsOn(met, stack, f);
      state := state[f := 1];
      forall k | 0 <= k < |fails|
        ensures Leads(floor, met + [f], fails[k].cycle)
      {
        LeadsStays(floor, met, met + [f], fails[k].cycle);
      }
      met := met + [f];
    }

    ghost predicate Grown(state0: map<nat, nat>, back0: set<(nat, nat)>, fin0: seq<nat>)
      reads this
    {
      && state0.Keys <= state.Keys
      && back0 <= back
      && forall a :: a in fin0 ==> a in fin
    }

    /** The walk from every function in file order. */
    method WalkAll()
      requires Valid([]) && state == map[] && met == [] && fails == []
      modifies this
      ensures Valid([]) && met == Met(floor) && forall a: nat :: a < |floor.callees| ==> a in fin
    {
      ghost var all := InOrder(|floor.callees|);
      assert VisitTo(floor, all, 0, []) == [];
      for f := 0 to |floor.callees|
        invariant Valid([]) && met == VisitTo(floor, all, f, []) && forall a: nat :: a < f ==> a in fin
      {
        if f !in state {
          Walk(f, [], Below(|floor.callees|));
        }
      }
    }
  }

  function Below(n: nat): (s: set<nat>)
    ensures forall a: nat :: a in s <==> a < n
  {
    if n == 0 then {} else Below(n - 1) + {n - 1}
  }

  function Index(s: seq<nat>, a: nat): (i: nat)
    requires a in s
    ensures i < |s| && s[i] == a && a !in s[..i]
  {
    if s[0] == a then 0 else 1 + Index(s[1..], a)
  }

  // ----------------------------------------------------- the deepest chain

  /** d is the weight of the heaviest uncut chain from a, and p is such a chain. */
  ghost predicate Deepest(f: Floor, cut: set<(nat, nat)>, a: nat, d: nat, p: seq<nat>)
    requires WellFormed(f)
  {
    && Chain(f, cut, p) && p[0] == a && Weight(f, p) == d
    && forall c :: Chain(f, cut, c) && c[0] == a ==> Weight(f, c) <= d
  }

  class Gauge {
    const floor: Floor
    const back: set<(nat, nat)>
    var memo: map<nat, (nat, seq<nat>)>
    ghost const fin: seq<nat>

    ghost predicate Valid()
      reads this
    {
      && WellFormed(floor) && Ordered(floor, back, fin)
      && (forall a: nat :: a < |floor.callees| ==> a in fin)
      && forall a :: a in memo ==> a < |floor.callees| && Deepest(floor, back, a, memo[a].0, memo[a].1)
    }

    constructor (floor: Floor, back: set<(nat, nat)>, ghost fin: seq<nat>)
      requires WellFormed(floor) && Ordered(floor, back, fin)
      requires forall a: nat :: a < |floor.callees| ==> a in fin
      ensures Valid() && this.floor == floor && this.back == back
    {
      this.floor, this.back, this.memo, this.fin := floor, back, map[], fin;
    }

    method Depth(a: nat) returns (d: nat, p: seq<nat>)
      requires Valid() && a < |floor.callees|
      modifies this
      ensures Valid() && Deepest(floor, back, a, d, p)
      decreases Rank(fin, a)
    {
      if a in memo {
        return memo[a].0, memo[a].1;
      }
      var best, via := 0, [];
      for k := 0 to |floor.callees[a]|
        invariant Valid()
        invariant Best(floor, back, a, k, best, via)
      {
        var g := floor.callees[a][k];
        assert Calls(floor, a, g);
        if (a, g) !in back {
          RankDrops(floor, back, fin, a, g);
          var d0, p0 := Depth(g);
          BestNext(floor, back, a, k, best, via, d0, p0);
          if d0 > best {
            best, via := d0, p0;
          }
        } else {
          BestSkips(floor, back, a, k, best, via);
        }
      }
      d, p := floor.sizes[a] + RETURN_SLOT + best, [a] + via;
      BestIsDeepest(floor, back, a, best, via);
      memo := memo[a := (d, p)];
    }
  }

  /** The heaviest uncut chain that starts at one of the first k callees of a. */
  ghost predicate Best(f: Floor, cut: set<(nat, nat)>, a: nat, k: nat, best: nat, via: seq<nat>)
    requires WellFormed(f) && a < |f.callees| && k <= |f.callees[a]|
  {
    && (via == [] ==> best == 0)
    && (via != [] ==> Chain(f, cut, via) && Weight(f, via) == best &&
                      via[0] in f.callees[a][..k] && (a, via[0]) !in cut)
    && forall j, c :: 0 <= j < k && Chain(f, cut, c) && c[0] == f.callees[a][j] && (a, c[0]) !in cut
                      ==> Weight(f, c) <= best
  }

  lemma BestNext(f: Floor, cut: set<(nat, nat)>, a: nat, k: nat, best: nat, via: seq<nat>, d: nat, p: seq<nat>)
    requires WellFormed(f) && a < |f.callees| && k < |f.callees[a]| && Best(f, cut, a, k, best, via)
    requires Deepest(f, cut, f.callees[a][k], d, p) && (a, f.callees[a][k]) !in cut
    ensures if d > best then Best(f, cut, a, k + 1, d, p) else Best(f, cut, a, k + 1, best, via)
  {
    assert f.callees[a][..k + 1] == f.callees[a][..k] + [f.callees[a][k]];
  }

  lemma BestSkips(f: Floor, cut: set<(nat, nat)>, a: nat, k: nat, best: nat, via: seq<nat>)
    requires WellFormed(f) && a < |f.callees| && k < |f.callees[a]| && Best(f, cut, a, k, best, via)
    requires (a, f.callees[a][k]) in cut
    ensures Best(f, cut, a, k + 1, best, via)
  {
    assert f.callees[a][..k + 1] == f.callees[a][..k] + [f.callees[a][k]];
  }

  lemma BestIsDeepest(f: Floor, cut: set<(nat, nat)>, a: nat, best: nat, via: seq<nat>)
    requires WellFormed(f) && a < |f.callees| && Best(f, cut, a, |f.callees[a]|, best, via)
    ensures Deepest(f, cut, a, f.sizes[a] + RETURN_SLOT + best, [a] + via)
  {
    var p := [a] + via;
    assert p[1..] == via;
    forall k | 0 <= k < |p| - 1
      ensures Calls(f, p[k], p[k + 1]) && (p[k], p[k + 1]) !in cut
    {
      if k > 0 { assert Calls(f, via[k - 1], via[k - 1 + 1]); }
    }
    forall c | Chain(f, cut, c) && c[0] == a
      ensures Weight(f, c) <= f.sizes[a] + RETURN_SLOT + best
    {
      if |c| > 1 {
        assert Calls(f, c[0], c[0 + 1]);
        TailChain(f, cut, c);
        var j :| 0 <= j < |f.callees[a]| && f.callees[a][j] == c[1];
        assert c[1..][0] == f.callees[a][j];
      } else {
        assert c[1..] == [];
      }
    }
  }

  // ------------------------------------------------------- the verdict

  /** How many calls of a chain are cut ones. */
  ghost function CutCalls(cut: set<(nat, nat)>, c: seq<nat>): nat {
    if |c| < 2 then 0 else (if (c[0], c[1]) in cut then 1 else 0) + CutCalls(cut, c[1..])
  }

  lemma {:induction false} Uncut(f: Floor, cut: set<(nat, nat)>, c: seq<nat>)
    requires Chain(f, {}, c) && CutCalls(cut, c) == 0
    ensures Chain(f, cut, c)
  {
    if |c| > 1 {
      TailChain(f, {}, c);
      Uncut(f, cut, c[1..]);
      forall k | 0 <= k < |c| - 1
        ensures (c[k], c[k + 1]) !in cut
      {
        if k > 0 { assert (c[1..][k - 1], c[1..][k - 1 + 1]) !in cut; }
      }
    }
  }

  /** A chain with one cut call is two uncut chains end to end. */
  lemma {:induction false} OneCut(f: Floor, cut: set<(nat, nat)>, c: seq<nat>) returns (k: nat)
    requires Chain(f, {}, c) && CutCalls(cut, c) == 1
    ensures 0 < k < |c| && (c[k - 1], c[k]) in cut
    ensures Chain(f, cut, c[..k]) && Chain(f, cut, c[k..])
  {
    TailChain(f, {}, c);
    if (c[0], c[1]) in cut {
      k := 1;
      Uncut(f, cut, c[1..]);
    } else {
      var j := OneCut(f, cut, c[1..]);
      k := j + 1;
      assert c[k..] == c[1..][j..];
      assert c[..k] == [c[0]] + c[1..][..j];
      forall i | 0 <= i < k - 1
        ensures Calls(f, c[..k][i], c[..k][i + 1]) && (c[..k][i], c[..k][i + 1]) !in cut
      {
        if i > 0 { assert Calls(f, c[1..][..j][i - 1], c[1..][..j][i - 1 + 1]); }
        assert Calls(f, c[i], c[i + 1]);
      }
    }
  }

  /** worst bounds every uncut chain, trap every uncut chain from the trap route. */
  ghost predicate Bounds(f: Floor, cut: set<(nat, nat)>, worst: nat, trap: nat)
    requires WellFormed(f)
  {
    && (forall c :: Chain(f, cut, c) ==> Weight(f, c) <= worst)
    && (forall c :: Chain(f, cut, c) && c[0] == f.trap ==> Weight(f, c) <= trap)
  }

  lemma OnePass(f: Floor, cut: set<(nat, nat)>, worst: nat, trap: nat, c: seq<nat>)
    requires WellFormed(f) && Bounds(f, cut, worst, trap)
    requires forall e :: e in cut ==> e.1 == f.trap
    requires Chain(f, {}, c) && CutCalls(cut, c) <= 1
    ensures Weight(f, c) <= worst + trap
  {
    if CutCalls(cut, c) == 0 {
      Uncut(f, cut, c);
    } else {
      var k := OneCut(f, cut, c);
      assert c == c[..k] + c[k..];
      WeightSplits(f, c[..k], c[k..]);
    }
  }

  /** The last stretch of a chain that does not come back to where it starts. */
  lemma {:induction false} Direct(f: Floor, c: seq<nat>) returns (d: seq<nat>)
    requires Chain(f, {}, c)
    ensures Chain(f, {}, d) && d[0] == c[0] && d[|d| - 1] == c[|c| - 1] && forall k :: 0 < k < |d| ==> d[k] != c[0]
    decreases |c|
  {
    d := c;
    if k :| 0 < k < |c| && c[k] == c[0] {
      SuffixChain(f, {}, c, k);
      d := Direct(f, c[k..]);
    }
  }

  /** A cut that only takes calls closing a cycle at the trap route, and leaves no cycle, takes all of them. */
  lemma CutAll(f: Floor, cut: set<(nat, nat)>, a: nat)
    requires (forall e :: e in cut ==> e.1 == f.trap) && (forall c :: !Cycle(f, cut, c)) && Closing(f, (a, f.trap))
    ensures (a, f.trap) in cut
  {
    var c :| Chain(f, {}, c) && c[0] == f.trap && c[|c| - 1] == a;
    var d := Direct(f, c);
    var round := d + [f.trap];
    if (a, f.trap) !in cut {
      forall k | 0 <= k < |round| - 1
        ensures Calls(f, round[k], round[k + 1]) && (round[k], round[k + 1]) !in cut
      {
        if k < |d| - 1 { assert Calls(f, d[k], d[k + 1]) && d[k + 1] != f.trap; }
      }
      assert Cycle(f, cut, round);
    }
  }

  lemma CutIs(f: Floor, cut: set<(nat, nat)>)
    requires (forall e :: e in cut ==> Closing(f, e) && e.1 == f.trap) && forall c :: !Cycle(f, cut, c)
    ensures cut == TrapCut(f)
  {
    forall e | e in cut ensures e in TrapCut(f) {
      assert e == (e.0, f.trap) && e.0 in Below(|f.callees|);
    }
    forall e | e in TrapCut(f) ensures e in cut {
      CutAll(f, cut, e.0);
    }
  }

  /** A cycle of calls enters the trap route. */
  ghost predicate EntersTrap(f: Floor, c: seq<nat>) {
    exists k :: 0 < k < |c| && c[k] == f.trap
  }

  lemma CyclesEnter(f: Floor, cut: set<(nat, nat)>, fin: seq<nat>, c: seq<nat>)
    requires WellFormed(f) && Ordered(f, cut, fin) && forall a: nat :: a < |f.callees| ==> a in fin
    requires forall e :: e in cut ==> e.1 == f.trap
    requires Cycle(f, {}, c)
    ensures EntersTrap(f, c)
  {
    NoCycle(f, cut, fin, c);
    var k :| 0 <= k < |c| - 1 && (c[k], c[k + 1]) in cut;
    assert c[k + 1] == f.trap;
  }

  function Pair(): Floor {
    Floor([[1], [0]], [8, 8], 1)
  }

  lemma PairMet()
    ensures Met(Pair()) == [0, 1]
  {
    var f, all := Pair(), InOrder(2);
    assert [] + [0] == [0] && [0] + [1] == [0, 1];
    assert VisitTo(f, [0], 1, [0, 1]) == Visit(f, 0, VisitTo(f, [0], 0, [0, 1])) == [0, 1];
    assert Visit(f, 1, [0]) == [0, 1];
    assert VisitTo(f, [1], 1, [0]) == Visit(f, 1, VisitTo(f, [1], 0, [0])) == [0, 1];
    assert Visit(f, 0, []) == [0, 1];
    assert VisitTo(f, all, 1, []) == Visit(f, all[0], VisitTo(f, all, 0, [])) == [0, 1];
    assert VisitTo(f, all, 2, []) == Visit(f, all[1], [0, 1]) == [0, 1];
  }

  /** Two functions that call each other, the trap route second in the file: every cycle enters it, and yet one
      leads from elsewhere, so the floor is refused. */
  lemma LegalRefused(c: seq<nat>)
    ensures Leads(Pair(), Met(Pair()), [0, 1, 0]) && (Cycle(Pair(), {}, c) ==> EntersTrap(Pair(), c))
  {
    PairMet();
    assert At([0, 1], 0, 0) && At([0, 1], 1, 1);
    if Cycle(Pair(), {}, c) {
      assert Calls(Pair(), c[0], c[0 + 1]);
      if c[1] != 1 {
        assert |c| > 2;
        assert Calls(Pair(), c[1], c[1 + 1]);
      }
    }
  }

  /** First in the file, the trap route is met before all others: only a cycle that avoids it leads from
      elsewhere. */
  lemma TrapFirst(f: Floor, c: seq<nat>)
    requires WellFormed(f) && f.trap == 0 && Leads(f, Met(f), c)
    ensures !EntersTrap(f, c)
  {
    var met, all := Met(f), InOrder(|f.callees|);
    MetFirst(f, all, |all|);
    if EntersTrap(f, c) {
      var k :| 0 < k < |c| && c[k] == 0;
      assert NoLater(met, c[0], c[k]);
      var i, j :| i <= j && At(met, i, c[0]) && At(met, j, c[k]);
      MetOnce(f, all, |all|, []);
    }
  }

  lemma {:induction false} MetFirst(f: Floor, all: seq<nat>, k: nat)
    requires WellFormed(f) && k <= |all| == |f.callees| && all == InOrder(|f.callees|)
    ensures k > 0 ==> VisitTo(f, all, k, []) != [] && VisitTo(f, all, k, [])[0] == 0
  {
    if k > 0 { MetFirst(f, all, k - 1); }
    if k == 1 {
      assert VisitTo(f, all, 0, []) == [] && [] + [0] == [0];
      assert [0] <= VisitTo(f, f.callees[0], |f.callees[0]|, [0]) == Visit(f, 0, []);
    }
  }

  lemma {:induction false} MetOnce(f: Floor, gs: seq<nat>, k: nat, met: seq<nat>)
    requires WellFormed(f) && k <= |gs| && (forall i :: 0 <= i < |gs| ==> gs[i] < |f.callees|) && Once(met)
    ensures Once(VisitTo(f, gs, k, met))
    decreases Unseen(f, met), 1, k
  {
    if k > 0 {
      var r := VisitTo(f, gs, k - 1, met);
      MetOnce(f, gs, k - 1, met);
      if gs[k - 1] !in r {
        assert gs[k - 1] in Unseen(f, r) && gs[k - 1] !in Unseen(f, r + [gs[k - 1]]);
        assert Unseen(f, r + [gs[k - 1]]) < Unseen(f, met);
        MetOnce(f, f.callees[gs[k - 1]], |f.callees[gs[k - 1]]|, r + [gs[k - 1]]);
      }
    }
  }

  /** No function is cut short of a frame size; the ones that are, in order. */
  method Unmeasured(n: nat, frames: map<nat, nat>) returns (missing: seq<nat>)
    ensures forall a: nat :: a in missing <==> a < n && a !in frames
  {
    missing := [];
    for a := 0 to n
      invariant forall b: nat :: b in missing <==> b < a && b !in frames
    {
      if a !in frames {
        missing := missing + [a];
      }
    }
  }

  /** The first k of some calls that are to functions of the floor, each once, in order of first call. */
  function Own(calls: seq<nat>, k: nat, n: nat): (own: seq<nat>)
    requires k <= |calls|
    ensures Once(own) && forall b: nat :: b in own <==> b < n && b in calls[..k]
  {
    if k == 0 then []
    else
      var own, g := Own(calls, k - 1, n), calls[k - 1];
      assert calls[..k] == calls[..k - 1] + [g];
      if g < n && g !in own then own + [g] else own
  }

  /** The functions of the floor each one calls. */
  method Callees(calls: seq<seq<nat>>) returns (callees: seq<seq<nat>>)
    ensures |callees| == |calls|
    ensures forall a :: 0 <= a < |calls| ==> callees[a] == Own(calls[a], |calls[a]|, |calls|)
  {
    callees := [];
    for a := 0 to |calls|
      invariant |callees| == a
      invariant forall c :: 0 <= c < a ==> callees[c] == Own(calls[c], |calls[c]|, |calls|)
    {
      var own: seq<nat> := [];
      for k := 0 to |calls[a]|
        invariant own == Own(calls[a], k, |calls|)
      {
        var g := calls[a][k];
        if g < |calls| && g !in own {
          own := own + [g];
        }
      }
      callees := callees + [own];
    }
  }

  /** What an accepted floor satisfies: every cycle of calls enters the trap route, and any chain that takes at
      most one call closing a cycle there fits, with the slack, in a quarter of the reserve. */
  ghost predicate Accepted(f: Floor, reserve: nat)
    requires WellFormed(f)
  {
    && (forall c :: Cycle(f, {}, c) ==> EntersTrap(f, c))
    && (forall c :: !Cycle(f, TrapCut(f), c))
    && (forall c :: Chain(f, {}, c) && CutCalls(TrapCut(f), c) <= 1 ==>
          (Weight(f, c) + 384) * 4 <= reserve)
  }

  /** The weight of a heaviest uncut chain from the trap route; nothing without one. */
  ghost predicate TrapDepth(f: Floor, trap: nat)
    requires WellFormed(f)
  {
    if f.trap < |f.callees| then exists p :: Deepest(f, TrapCut(f), f.trap, trap, p) else trap == 0
  }

  /** A floor is refused as recursing exactly for the cycles that lead from elsewhere than the trap route; else
      the depths are exact, and it is refused when the total is over the quarter. */
  ghost predicate Reported(f: Floor, reserve: nat, r: Report)
    requires WellFormed(f)
  {
    && (forall k :: 0 <= k < |r.fails| ==> r.fails[k].Recurses? || r.fails == [OverQuarter(r.total, reserve)])
    && (forall k :: 0 <= k < |r.fails| && r.fails[k].Recurses? ==> Leads(f, Met(f), r.fails[k].cycle))
    && (Recursing(r) <==> exists c :: Leads(f, Met(f), c))
    && (!Recursing(r) ==>
          && (forall c :: Chain(f, TrapCut(f), c) ==> Weight(f, c) <= r.worst)
          && (r.path == [] ==> r.worst == 0 && f.callees == [])
          && (r.path != [] ==> Chain(f, TrapCut(f), r.path) && Weight(f, r.path) == r.worst)
          && TrapDepth(f, r.trap)
          && r.total == r.worst + r.trap + 384
          && (r.fails == [] <==> r.total * 4 <= reserve))
  }

  predicate Recursing(r: Report) {
    exists k :: 0 <= k < |r.fails| && r.fails[k].Recurses?
  }

  /** The report on a floor every function of which has a frame size. */
  method Measure(f: Floor, reserve: nat) returns (r: Report)
    requires WellFormed(f)
    ensures r.fails == [] ==> Accepted(f, reserve)
    ensures Reported(f, reserve, r)
  {
    var w := new Walker(f);
    w.WalkAll();
    ghost var cut := w.back;
    if w.fails != [] {
      assert w.fails[0].Recurses? && Leads(f, Met(f), w.fails[0].cycle);
      return Report(w.fails, 0, [], 0, 0);
    }
    forall c
      ensures !Leads(f, Met(f), c)
    {
      NoneLeads(f, w.met, w.fin, cut, c);
    }
    forall c
      ensures !Cycle(f, cut, c) && (Cycle(f, {}, c) ==> EntersTrap(f, c))
    {
      NoCycle(f, cut, w.fin, c);
      if Cycle(f, {}, c) {
        CyclesEnter(f, cut, w.fin, c);
      }
    }
    CutIs(f, cut);
    var g := new Gauge(f, w.back, w.fin);
    var worst, path := 0, [];
    for a := 0 to |f.callees|
      invariant g.Valid() && g.floor == f && g.back == cut
      invariant forall c :: Chain(f, cut, c) && c[0] < a ==> Weight(f, c) <= worst
      invariant path == [] ==> worst == 0 && a == 0
      invariant path != [] ==> Chain(f, cut, path) && Weight(f, path) == worst
    {
      var d, p := g.Depth(a);
      if d > worst {
        worst, path := d, p;
      }
    }
    var trap := 0;
    if f.trap < |f.callees| {
      var d, _ := g.Depth(f.trap);
      trap := d;
    }
    var total := worst + trap + RESERVE_SLACK;
    forall c | Chain(f, {}, c) && CutCalls(cut, c) <= 1
      ensures Weight(f, c) <= worst + trap
    {
      OnePass(f, cut, worst, trap, c);
    }
    r := Report(if total * 4 > reserve then [OverQuarter(total, reserve)] else [], worst, path, trap, total);
  }

  /** The floor of some calls, each function's own in it, and their frames. */
  ghost function FloorOf(calls: seq<seq<nat>>, frames: map<nat, nat>, trap: nat): (f: Floor)
    requires forall a: nat :: a < |calls| ==> a in frames
    ensures WellFormed(f)
  {
    var callees := seq(|calls|, a requires 0 <= a < |calls| => Own(calls[a], |calls[a]|, |calls|));
    assert forall a, k :: 0 <= a < |callees| && 0 <= k < |callees[a]| ==> callees[a][k] in callees[a];
    Floor(callees, seq(|calls|, a requires 0 <= a < |calls| => frames[a]), trap)
  }

  method Built(calls: seq<seq<nat>>, frames: map<nat, nat>, trap: nat) returns (f: Floor)
    requires forall a: nat :: a < |calls| ==> a in frames
    ensures f == FloorOf(calls, frames, trap)
  {
    var callees := Callees(calls);
    f := Floor(callees, seq(|calls|, a requires 0 <= a < |calls| => frames[a]), trap);
  }

  /** From the calls of each function, the measured frames and the declared reserve to the report; calls out of
      the floor do not count. */
  method ReserveMeasure(calls: seq<seq<nat>>, frames: map<nat, nat>, trap: nat, reserve: Reserve)
    returns (r: Report)
    ensures reserve.Undeclared? ==> r.fails == [NoReserve]
    ensures reserve.Declared? && (exists a: nat :: a < |calls| && a !in frames) ==>
              && |r.fails| == 1 && r.fails[0].NoFrame?
              && forall a: nat :: a in r.fails[0].functions <==> a < |calls| && a !in frames
    ensures reserve.Declared? && (forall a: nat :: a < |calls| ==> a in frames) ==>
              && Reported(FloorOf(calls, frames, trap), reserve.bytes, r)
              && (r.fails == [] ==> Accepted(FloorOf(calls, frames, trap), reserve.bytes))
    ensures r.fails == [] ==> reserve.Declared? && forall a: nat :: a < |calls| ==> a in frames
  {
    if reserve.Undeclared? {
      return Report([NoReserve], 0, [], 0, 0);
    }
    var missing := Unmeasured(|calls|, frames);
    if missing != [] {
      assert missing[0] in missing;
      return Report([NoFrame(missing)], 0, [], 0, 0);
    }
    assert forall a: nat :: a < |calls| ==> a in frames by {
      forall a: nat | a < |calls|
        ensures a in frames
      {
        assert a !in missing;
      }
    }
    var floor := Built(calls, frames, trap);
    r := Measure(floor, reserve.bytes);
  }
}
