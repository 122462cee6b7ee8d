/** The control-flow analyses of the floor checker: which blocks lie on every way to a block, and whether a lock
    is held at an access. */
module Dominance {
  /** How a block's last line reads: exactly `unreachable`, only beginning with that word, or anything else. */
  datatype End = Unreachable | Tagged | Other

  /** `succs` are the targets of a final `br` or `switch`; every other last line leaves them empty. */
  datatype Block = Block(succs: seq<nat>, end: End)

  ghost predicate WellFormed(g: seq<Block>) {
    && 0 < |g|
    && (forall b, k :: 0 <= b < |g| && 0 <= k < |g[b].succs| ==> g[b].succs[k] < |g|)
    && (forall b :: 0 <= b < |g| && g[b].end != Other ==> g[b].succs == [])
  }

  predicate Edge(g: seq<Block>, a: nat, b: nat) {
    a < |g| && b < |g| && b in g[a].succs
  }

  /** A way through the blocks, one edge at a time. */
  ghost predicate Path(g: seq<Block>, p: seq<nat>) {
    && 0 < |p|
    && (forall k :: 0 <= k < |p| ==> p[k] < |g|)
    && (forall k :: 0 <= k < |p| - 1 ==> Edge(g, p[k], p[k + 1]))
  }

  ghost predicate Orphan(g: seq<Block>, b: nat) {
    forall a :: !Edge(g, a, b)
  }

  /** A way to `b` from the entry, which is block 0. */
  ghost predicate EntryPath(g: seq<Block>, p: seq<nat>, b: nat) {
    Path(g, p) && p[0] == 0 && p[|p| - 1] == b
  }

  /** A way to `b` from the entry or from a block nothing branches to. */
  ghost predicate RootPath(g: seq<Block>, p: seq<nat>, b: nat) {
    Path(g, p) && (p[0] == 0 || Orphan(g, p[0])) && p[|p| - 1] == b
  }

  ghost predicate OnEveryRootPath(g: seq<Block>, a: nat, b: nat) {
    forall p :: RootPath(g, p, b) ==> a in p
  }

  ghost predicate OnEveryEntryPath(g: seq<Block>, a: nat, b: nat) {
    forall p :: EntryPath(g, p, b) ==> a in p
  }

  ghost predicate Exact(g: seq<Block>, dom: seq<set<nat>>) {
    && |dom| == |g|
    && forall a: nat, b: nat :: a < |g| && b < |g| ==> (a in dom[b] <==> OnEveryRootPath(g, a, b))
  }

  // ---------------------------------------------------------------- sets

  /** What one step of the iteration stores for block i. */
  ghost predicate Meets(preds: seq<nat>, dom: seq<set<nat>>, i: nat, r: set<nat>) {
    && (forall k :: 0 <= k < |preds| ==> preds[k] < |dom|)
    && (preds == [] ==> r == {i})
    && (preds != [] ==> forall a :: a in r <==> a == i || forall k :: 0 <= k < |preds| ==> a in dom[preds[k]])
  }

  ghost predicate Preds(g: seq<Block>, preds: seq<seq<nat>>) {
    && |preds| == |g|
    && forall b :: 0 <= b < |g| ==> forall a: nat :: a in preds[b] <==> Edge(g, a, b)
  }

  method Predecessors(g: seq<Block>) returns (preds: seq<seq<nat>>)
    requires WellFormed(g)
    ensures Preds(g, preds)
  {
    preds := seq(|g|, _ => []);
    for b := 0 to |g|
      invariant |preds| == |g|
      invariant forall t :: 0 <= t < |g| ==> forall a: nat :: a in preds[t] <==> a < b && Edge(g, a, t)
    {
      for k := 0 to |g[b].succs|
        invariant |preds| == |g|
        invariant forall t :: 0 <= t < |g| ==> forall a: nat ::
          a in preds[t] <==> (a < b && Edge(g, a, t)) || (a == b && t in g[b].succs[..k])
      {
        var s := g[b].succs[k];
        preds := preds[s := preds[s] + [b]];
        assert g[b].succs[..k + 1] == g[b].succs[..k] + [s];
      }
      assert g[b].succs[..|g[b].succs|] == g[b].succs;
    }
  }

  method Meet(preds: seq<nat>, dom: seq<set<nat>>, i: nat) returns (r: set<nat>)
    requires forall k :: 0 <= k < |preds| ==> preds[k] < |dom|
    ensures Meets(preds, dom, i, r)
  {
    if preds == [] {
      return {i};
    }
    r := dom[preds[0]];
    for k := 1 to |preds|
      invariant forall a :: a in r <==> forall j :: 0 <= j < k ==> a in dom[preds[j]]
    {
      r := r * dom[preds[k]];
    }
    r := r + {i};
  }

  ghost function Total(dom: seq<set<nat>>): nat {
    if dom == [] then 0 else |dom[0]| + Total(dom[1..])
  }

  lemma {:induction false} TotalDrops(dom: seq<set<nat>>, i: nat, r: set<nat>)
    requires i < |dom| && r < dom[i]
    ensures Total(dom[i := r]) < Total(dom)
  {
    if i == 0 {
      assert dom[0 := r][1..] == dom[1..];
      Smaller(r, dom[0]);
    } else {
      assert dom[i := r][1..] == dom[1..][i - 1 := r];
      TotalDrops(dom[1..], i - 1, r);
    }
  }

  lemma Smaller(a: set<nat>, b: set<nat>)
    requires a < b
    ensures |a| < |b|
  {
    assert b == a + (b - a);
    assert b - a != {};
  }

  /** Every set contains what the next step would store: the sets only shrink. */
  ghost predicate Shrinking(g: seq<Block>, preds: seq<seq<nat>>, dom: seq<set<nat>>) {
    && |dom| == |g| == |preds|
    && 0 < |g|
    && dom[0] == {0}
    && forall i :: 0 < i < |g| ==> forall r :: Meets(preds[i], dom, i, r) ==> r <= dom[i]
  }

  /** Nothing is dropped that lies on every way to its block. */
  ghost predicate Keeps(g: seq<Block>, dom: seq<set<nat>>) {
    |dom| == |g| && forall a: nat, b: nat :: a < |g| && b < |g| && OnEveryRootPath(g, a, b) ==> a in dom[b]
  }

  /** The stored sets are a solution for the blocks 1 .. m - 1. */
  ghost predicate Solved(preds: seq<seq<nat>>, dom: seq<set<nat>>, m: nat) {
    |preds| == |dom| && m <= |dom| && forall i :: 0 < i < m ==> Meets(preds[i], dom, i, dom[i])
  }

  lemma StepShrinks(g: seq<Block>, preds: seq<seq<nat>>, dom: seq<set<nat>>, i: nat, r: set<nat>)
    requires WellFormed(g) && Preds(g, preds) && Shrinking(g, preds, dom)
    requires 0 < i < |g| && Meets(preds[i], dom, i, r)
    ensures r <= dom[i] && Shrinking(g, preds, dom[i := r])
  {
    var next := dom[i := r];
    forall j, q | 0 < j < |g| && Meets(preds[j], next, j, q)
      ensures q <= next[j]
    {
      MeetMonotone(preds[j], dom, next, j, q);
    }
  }

  lemma MeetMonotone(ps: seq<nat>, dom: seq<set<nat>>, next: seq<set<nat>>, j: nat, q: set<nat>)
    requires |dom| == |next| && forall k :: 0 <= k < |dom| ==> next[k] <= dom[k]
    requires Meets(ps, next, j, q)
    ensures exists w :: Meets(ps, dom, j, w) && q <= w
  {
    if ps == [] {
      assert Meets(ps, dom, j, q);
    } else {
      var w := (set a | a in dom[ps[0]] && forall k :: 0 <= k < |ps| ==> a in dom[ps[k]]) + {j};
      assert Meets(ps, dom, j, w);
      assert q <= w;
    }
  }

  lemma StepKeeps(g: seq<Block>, preds: seq<seq<nat>>, dom: seq<set<nat>>, i: nat, r: set<nat>)
    requires WellFormed(g) && Preds(g, preds) && Keeps(g, dom)
    requires 0 < i < |g| && Meets(preds[i], dom, i, r)
    ensures Keeps(g, dom[i := r])
  {
    forall a: nat | a < |g| && OnEveryRootPath(g, a, i)
      ensures a in r
    {
      if preds[i] == [] {
        assert RootPath(g, [i], i);
      } else if a != i {
        forall k | 0 <= k < |preds[i]|
          ensures a in dom[preds[i][k]]
        {
          ThroughPred(g, a, preds[i][k], i);
        }
      }
    }
  }

  /** What every way to i passes, other than i, every way to a predecessor passes. */
  lemma ThroughPred(g: seq<Block>, a: nat, p: nat, i: nat)
    requires Edge(g, p, i) && OnEveryRootPath(g, a, i) && a != i
    ensures OnEveryRootPath(g, a, p)
  {
    forall q | RootPath(g, q, p)
      ensures a in q
    {
      var longer := q + [i];
      assert RootPath(g, longer, i);
    }
  }

  lemma StartKeeps(g: seq<Block>, dom: seq<set<nat>>)
    requires WellFormed(g) && |dom| == |g| && dom[0] == {0}
    requires forall b, a: nat :: 0 < b < |g| && a < |g| ==> a in dom[b]
    ensures Keeps(g, dom)
  {
    assert RootPath(g, [0], 0);
  }

  lemma OrphanAlone(g: seq<Block>, preds: seq<seq<nat>>, b: nat)
    requires Preds(g, preds) && b < |g|
    ensures Orphan(g, b) ==> preds[b] == []
  {
    if preds[b] != [] {
      assert preds[b][0] in preds[b];
      assert Edge(g, preds[b][0], b);
    }
  }

  /** A solution only names blocks that lie on every way. */
  lemma {:induction false} SolvedSound(g: seq<Block>, preds: seq<seq<nat>>, dom: seq<set<nat>>, a: nat, b: nat,
          p: seq<nat>)
    requires WellFormed(g) && Preds(g, preds) && |dom| == |g| && dom[0] == {0} && Solved(preds, dom, |g|)
    requires b < |g| && a in dom[b] && RootPath(g, p, b)
    ensures a in p
    decreases |p|
  {
    if a != b {
      if |p| == 1 {
        OrphanAlone(g, preds, b);
        assert false;
      }
      var q := p[..|p| - 1];
      var prev := p[|p| - 2];
      assert Edge(g, prev, p[|p| - 2 + 1]);
      assert prev in preds[b];
      SolvedSound(g, preds, dom, a, prev, q);
    }
  }

  /** The iterative dataflow: each pass stores in place, and the loop ends when a whole pass stored nothing new. */
  method Dominators(g: seq<Block>) returns (dom: seq<set<nat>>)
    requires WellFormed(g)
    ensures Exact(g, dom)
  {
    var preds := Predecessors(g);
    var full: set<nat> := {};
    for k := 0 to |g|
      invariant forall a: nat :: a in full <==> a < k
    {
      full := full + {k};
    }
    dom := seq(|g|, _ => full)[0 := {0}];
    StartKeeps(g, dom);
    assert Shrinking(g, preds, dom) by { StartShrinks(g, preds, dom); }
    var changed := true;
    while changed
      invariant Shrinking(g, preds, dom) && Keeps(g, dom)
      invariant !changed ==> Solved(preds, dom, |g|)
      decreases Total(dom), if changed then 1 else 0
    {
      changed := false;
      ghost var before := Total(dom);
      for i := 1 to |g|
        invariant Shrinking(g, preds, dom) && Keeps(g, dom)
        invariant !changed ==> Solved(preds, dom, i) && Total(dom) == before
        invariant changed ==> Total(dom) < before
      {
        assert forall k :: 0 <= k < |preds[i]| ==> preds[i][k] in preds[i];
        var next := Meet(preds[i], dom, i);
        StepShrinks(g, preds, dom, i, next);
        if next != dom[i] {
          StepKeeps(g, preds, dom, i, next);
          TotalDrops(dom, i, next);
          dom := dom[i := next];
          changed := true;
        }
      }
    }
    forall a: nat, b: nat, p | b < |g| && a in dom[b] && RootPath(g, p, b)
      ensures a in p
    {
      SolvedSound(g, preds, dom, a, b, p);
    }
  }

  lemma StartShrinks(g: seq<Block>, preds: seq<seq<nat>>, dom: seq<set<nat>>)
    requires WellFormed(g) && Preds(g, preds) && |dom| == |g| && dom[0] == {0}
    requires forall b, a: nat :: 0 < b < |g| ==> (a in dom[b] <==> a < |g|)
    ensures Shrinking(g, preds, dom)
  {
    forall i, r | 0 < i < |g| && Meets(preds[i], dom, i, r)
      ensures r <= dom[i]
    {
      forall a | a in r
        ensures a in dom[i]
      {
        if preds[i] != [] && a != i {
          assert a in dom[preds[i][0]];
          assert preds[i][0] in preds[i];
        }
      }
    }
  }

  /** For every block the entry reaches or not: what the sets name lies on every way from the entry. */
  lemma DominatorsSound(g: seq<Block>, dom: seq<set<nat>>, a: nat, b: nat)
    requires WellFormed(g) && Exact(g, dom) && a < |g| && b < |g| && a in dom[b]
    ensures OnEveryEntryPath(g, a, b)
  {
    forall p | EntryPath(g, p, b)
      ensures a in p
    {
      assert RootPath(g, p, b);
    }
  }

  /** No way to `b` from a block without predecessors avoids the entry. */
  ghost predicate Entered(g: seq<Block>, b: nat) {
    OnEveryRootPath(g, 0, b)
  }

  ghost predicate RightAt(g: seq<Block>, dom: seq<set<nat>>, b: nat)
    requires b < |dom|
  {
    forall a: nat :: a < |g| ==> (a in dom[b] <==> OnEveryEntryPath(g, a, b))
  }

  /** A block's set is its dominators exactly when no way to it avoids the entry, and the set itself tells: it
      has the entry then, and only then. */
  lemma DominatorsExactly(g: seq<Block>, dom: seq<set<nat>>, b: nat)
    requires WellFormed(g) && Exact(g, dom) && b < |g|
    ensures RightAt(g, dom, b) <==> Entered(g, b)
    ensures Entered(g, b) <==> 0 in dom[b]
  {
    if Entered(g, b) {
      forall a: nat | a < |g|
        ensures a in dom[b] <==> OnEveryEntryPath(g, a, b)
      {
        if a in dom[b] { DominatorsSound(g, dom, a, b); }
        if OnEveryEntryPath(g, a, b) { EnteredPasses(g, a, b); }
      }
    }
    if RightAt(g, dom, b) {
      forall p | EntryPath(g, p, b) ensures 0 in p { assert p[0] == 0; }
      assert OnEveryEntryPath(g, 0, b);
    }
  }

  /** What lies on every way from the entry lies on every way that passes it. */
  lemma EnteredPasses(g: seq<Block>, a: nat, b: nat)
    requires Entered(g, b) && OnEveryEntryPath(g, a, b)
    ensures OnEveryRootPath(g, a, b)
  {
    forall p | RootPath(g, p, b)
      ensures a in p
    {
      var k :| 0 <= k < |p| && p[k] == 0;
      FromThere(g, p, b, k);
      assert a in p[k..];
    }
  }

  lemma FromThere(g: seq<Block>, p: seq<nat>, b: nat, k: nat)
    requires RootPath(g, p, b) && k < |p| && p[k] == 0
    ensures EntryPath(g, p[k..], b)
  {
    forall j | 0 <= j < |p[k..]| - 1
      ensures Edge(g, p[k..][j], p[k..][j + 1])
    {
      assert Edge(g, p[k + j], p[k + j + 1]);
    }
  }

  /** When only the entry is without predecessors, every set is right. */
  lemma DominatorsComplete(g: seq<Block>, dom: seq<set<nat>>, b: nat)
    requires WellFormed(g) && Exact(g, dom) && b < |g|
    requires forall r: nat :: 0 < r < |g| ==> !Orphan(g, r)
    ensures RightAt(g, dom, b)
  {
    forall p | RootPath(g, p, b) ensures 0 in p { assert p[0] == 0; }
    DominatorsExactly(g, dom, b);
  }

  /** Reachability of every block is enough for that. */
  lemma ReachedHasPred(g: seq<Block>, r: nat, p: seq<nat>)
    requires WellFormed(g) && 0 < r < |g| && EntryPath(g, p, r)
    ensures !Orphan(g, r)
  {
    assert |p| > 1;
    assert Edge(g, p[|p| - 2], p[|p| - 2 + 1]);
  }

  /** Without it the sets can miss a dominator: block 1 lies on the only way from the entry to block 3, but the
      unreached block 2 also branches there. */
  lemma UnreachedShrinks(dom: seq<set<nat>>)
    requires Exact([Block([1], Other), Block([3], Other), Block([3], Other), Block([], Other)], dom)
    ensures var g := [Block([1], Other), Block([3], Other), Block([3], Other), Block([], Other)];
      OnEveryEntryPath(g, 1, 3) && 1 !in dom[3]
  {
    var g := [Block([1], Other), Block([3], Other), Block([3], Other), Block([], Other)];
    assert RootPath(g, [2, 3], 3) by {
      assert Edge(g, 2, 3);
      assert Orphan(g, 2);
    }
    forall p | EntryPath(g, p, 3)
      ensures 1 in p
    {
      assert |p| > 1;
      assert Edge(g, p[0], p[0 + 1]);
      assert p[1] == 1;
    }
  }

  // ------------------------------------------------------------ held locks

  /** A lock or unlock call: its block, its line there, and the lock it names. */
  datatype LockCall = LockCall(block: nat, line: nat, name: string, isLock: bool)

  const WAITER_LIST := "waiter-list"

  /** The locks that guard what is asked for: a waiter list is held under either of two locks. */
  function Names(lock: string): set<string> {
    if lock == WAITER_LIST then {"chan.lock", "cell"} else {lock}
  }

  predicate Site(c: LockCall, lock: string, isLock: bool) {
    c.isLock == isLock && c.name in Names(lock)
  }

  /** The calls asked about: those on the lock itself; on a channel's or a cell's for a waiter list. */
  lemma SiteIs(c: LockCall, lock: string)
    ensures lock != "waiter-list" ==>
              (Site(c, lock, true) <==> c.isLock && c.name == lock)
              && (Site(c, lock, false) <==> !c.isLock && c.name == lock)
    ensures Site(c, "waiter-list", true) <==> c.isLock && (c.name == "chan.lock" || c.name == "cell")
    ensures Site(c, "waiter-list", false) <==> !c.isLock && (c.name == "chan.lock" || c.name == "cell")
  {}

  /** The call at `c` runs before the access at (bi, li) on the way p to bi. */
  ghost predicate Before(c: LockCall, p: seq<nat>, bi: nat, li: nat)
    requires 0 < |p|
  {
    c.block in p[..|p| - 1] || (c.block == bi && c.line < li)
  }

  /** The call at `c` runs after the access at (bi, li) on the way q from bi. */
  ghost predicate After(c: LockCall, q: seq<nat>, bi: nat, li: nat)
    requires 0 < |q|
  {
    c.block in q[1..] || (c.block == bi && c.line > li)
  }

  ghost predicate LockedBefore(locks: seq<LockCall>, lock: string, p: seq<nat>, bi: nat, li: nat)
    requires 0 < |p|
  {
    exists c :: c in locks && Site(c, lock, true) && Before(c, p, bi, li)
  }

  ghost predicate UnlockedAfter(locks: seq<LockCall>, lock: string, q: seq<nat>, bi: nat, li: nat)
    requires 0 < |q|
  {
    exists c :: c in locks && Site(c, lock, false) && After(c, q, bi, li)
  }

  /** One lock call runs before the access on every way to it. */
  ghost predicate Dominated(g: seq<Block>, locks: seq<LockCall>, lock: string, bi: nat, li: nat) {
    exists c :: c in locks && Site(c, lock, true) && Dominates(g, c, bi, li)
  }

  ghost predicate Dominates(g: seq<Block>, c: LockCall, bi: nat, li: nat) {
    (c.block == bi && c.line < li) || (c.block != bi && OnEveryRootPath(g, c.block, bi))
  }

  /** A block the function is left from: nothing follows, and it is no dead end. */
  predicate Leaves(b: Block) {
    b.succs == [] && b.end == Other
  }

  /** A way from b to a block the function is left from. */
  ghost predicate ExitPath(g: seq<Block>, q: seq<nat>, b: nat) {
    Path(g, q) && q[0] == b && Leaves(g[q[|q| - 1]])
  }

  ghost predicate Released(g: seq<Block>, locks: seq<LockCall>, lock: string, bi: nat, li: nat) {
    forall q :: ExitPath(g, q, bi) ==> UnlockedAfter(locks, lock, q, bi, li)
  }

  /** Every way out of b passes a block that unlocks. */
  ghost predicate Covered(g: seq<Block>, unlocks: seq<bool>, b: nat)
    requires |unlocks| == |g|
  {
    forall q :: ExitPath(g, q, b) ==> exists k :: 0 <= k < |q| && unlocks[q[k]]
  }

  /** What one step of the iteration stores for block b. */
  predicate Step(g: seq<Block>, unlocks: seq<bool>, covered: seq<bool>, b: nat)
    requires WellFormed(g) && |unlocks| == |covered| == |g| && b < |g|
  {
    unlocks[b] || g[b].end != Other ||
    (g[b].succs != [] && forall k :: 0 <= k < |g[b].succs| ==> covered[g[b].succs[k]])
  }

  lemma StepCovers(g: seq<Block>, unlocks: seq<bool>, covered: seq<bool>, b: nat)
    requires WellFormed(g) && |unlocks| == |covered| == |g| && b < |g|
    requires forall s :: 0 <= s < |g| && Covered(g, unlocks, s) ==> covered[s]
    requires Covered(g, unlocks, b)
    ensures Step(g, unlocks, covered, b)
  {
    if !unlocks[b] && g[b].end == Other {
      if g[b].succs == [] {
        assert ExitPath(g, [b], b);
        assert false;
      }
      forall k | 0 <= k < |g[b].succs|
        ensures covered[g[b].succs[k]]
      {
        CoveredNext(g, unlocks, b, g[b].succs[k]);
      }
    }
  }

  lemma CoveredNext(g: seq<Block>, unlocks: seq<bool>, b: nat, s: nat)
    requires WellFormed(g) && |unlocks| == |g| && Edge(g, b, s) && !unlocks[b] && Covered(g, unlocks, b)
    ensures Covered(g, unlocks, s)
  {
    forall q | ExitPath(g, q, s)
      ensures exists k :: 0 <= k < |q| && unlocks[q[k]]
    {
      var longer := [b] + q;
      assert forall k :: 0 <= k < |longer| - 1 ==> Edge(g, longer[k], longer[k + 1]) by {
        forall k | 0 <= k < |longer| - 1
          ensures Edge(g, longer[k], longer[k + 1])
        {
          if k > 0 { assert Edge(g, q[k - 1], q[k - 1 + 1]); }
        }
      }
      assert ExitPath(g, longer, b);
      var k :| 0 <= k < |longer| && unlocks[longer[k]];
      assert longer[k] == q[k - 1];
    }
  }

  lemma {:induction false} FixedCovers(g: seq<Block>, unlocks: seq<bool>, covered: seq<bool>, b: nat, q: seq<nat>)
    requires WellFormed(g) && |unlocks| == |covered| == |g| && b < |g|
    requires forall s :: 0 <= s < |g| && covered[s] ==> Step(g, unlocks, covered, s)
    requires covered[b] && ExitPath(g, q, b)
    ensures exists k :: 0 <= k < |q| && unlocks[q[k]]
    decreases |q|
  {
    if unlocks[b] {
      assert unlocks[q[0]];
    } else {
      assert |q| > 1;
      assert Edge(g, q[0], q[0 + 1]);
      ExitRest(g, q);
      FixedCovers(g, unlocks, covered, q[1], q[1..]);
      var k :| 0 <= k < |q[1..]| && unlocks[q[1..][k]];
      assert unlocks[q[k + 1]];
    }
  }

  lemma ExitRest(g: seq<Block>, q: seq<nat>)
    requires |q| > 1 && ExitPath(g, q, q[0])
    ensures ExitPath(g, q[1..], q[1])
  {
    forall k | 0 <= k < |q[1..]| - 1
      ensures Edge(g, q[1..][k], q[1..][k + 1])
    {
      assert Edge(g, q[k + 1], q[k + 1 + 1]);
    }
  }

  ghost function Trues(s: seq<bool>): nat {
    if s == [] then 0 else (if s[0] then 1 else 0) + Trues(s[1..])
  }

  lemma {:induction false} TruesDrop(s: seq<bool>, i: nat)
    requires i < |s| && s[i]
    ensures Trues(s[i := false]) < Trues(s)
  {
    if i == 0 {
      assert s[0 := false][1..] == s[1..];
    } else {
      assert s[i := false][1..] == s[1..][i - 1 := false];
      TruesDrop(s[1..], i - 1);
    }
  }

  /** The greatest solution: start from everything covered and take away until a whole pass takes nothing. */
  method Coverage(g: seq<Block>, unlocks: seq<bool>) returns (covered: seq<bool>)
    requires WellFormed(g) && |unlocks| == |g|
    ensures |covered| == |g|
    ensures forall b :: 0 <= b < |g| ==> (covered[b] <==> Covered(g, unlocks, b))
  {
    covered := seq(|g|, _ => true);
    var changed := true;
    while changed
      invariant |covered| == |g|
      invariant forall b :: 0 <= b < |g| && Covered(g, unlocks, b) ==> covered[b]
      invariant forall b :: 0 <= b < |g| && Step(g, unlocks, covered, b) ==> covered[b]
      invariant !changed ==> forall b :: 0 <= b < |g| && covered[b] ==> Step(g, unlocks, covered, b)
      decreases Trues(covered), if changed then 1 else 0
    {
      changed := false;
      ghost var before := Trues(covered);
      for b := 0 to |g|
        invariant |covered| == |g|
        invariant forall s :: 0 <= s < |g| && Covered(g, unlocks, s) ==> covered[s]
        invariant forall s :: 0 <= s < |g| && Step(g, unlocks, covered, s) ==> covered[s]
        invariant changed ==> Trues(covered) < before
        invariant !changed ==> Trues(covered) == before
        invariant !changed ==> forall s :: 0 <= s < b && covered[s] ==> Step(g, unlocks, covered, s)
      {
        var v := Step(g, unlocks, covered, b);
        if v != covered[b] {
          if Covered(g, unlocks, b) {
            StepCovers(g, unlocks, covered, b);
            assert false;
          }
          TruesDrop(covered, b);
          covered := covered[b := v];
          changed := true;
        }
      }
    }
    forall b, q | 0 <= b < |g| && covered[b] && ExitPath(g, q, b)
      ensures exists k :: 0 <= k < |q| && unlocks[q[k]]
    {
      FixedCovers(g, unlocks, covered, b, q);
    }
  }

  predicate OwnAfter(locks: seq<LockCall>, lock: string, bi: nat, li: nat) {
    exists k :: 0 <= k < |locks| && Site(locks[k], lock, false) && locks[k].block == bi && locks[k].line > li
  }

  ghost predicate HoldsUnlock(locks: seq<LockCall>, lock: string, b: nat) {
    exists c :: c in locks && Site(c, lock, false) && c.block == b
  }

  /** With no unlock later in the access's own block, release is a matter of the blocks that follow. */
  lemma ReleasedNext(g: seq<Block>, unlocks: seq<bool>, locks: seq<LockCall>, lock: string, bi: nat, li: nat)
    requires WellFormed(g) && |unlocks| == |g| && bi < |g|
    requires forall b :: 0 <= b < |g| ==> (unlocks[b] <==> HoldsUnlock(locks, lock, b))
    requires !OwnAfter(locks, lock, bi, li) && g[bi].end != Tagged
    ensures Released(g, locks, lock, bi, li) <==>
            g[bi].end == Unreachable ||
            (g[bi].succs != [] && forall s :: s in g[bi].succs ==> Covered(g, unlocks, s))
  {
    if Released(g, locks, lock, bi, li) && g[bi].end != Unreachable {
      if g[bi].succs == [] {
        assert ExitPath(g, [bi], bi);
        NotAlone(locks, lock, bi, li);
        assert false;
      }
      forall s | s in g[bi].succs
        ensures Covered(g, unlocks, s)
      {
        ReleasedCovers(g, unlocks, locks, lock, bi, li, s);
      }
    }
    if g[bi].end == Unreachable {
      forall q
        ensures !ExitPath(g, q, bi)
      {
        DeadEnd(g, bi, q);
      }
    }
    if g[bi].succs != [] && forall s :: s in g[bi].succs ==> Covered(g, unlocks, s) {
      CoveredReleases(g, unlocks, locks, lock, bi, li);
    }
  }

  /** No way out starts at a block that ends in `unreachable`. */
  lemma DeadEnd(g: seq<Block>, b: nat, q: seq<nat>)
    requires WellFormed(g) && b < |g| && g[b].end != Other
    ensures !ExitPath(g, q, b)
  {
    if Path(g, q) && |q| > 1 {
      assert Edge(g, q[0], q[0 + 1]);
    }
  }

  lemma NotAlone(locks: seq<LockCall>, lock: string, bi: nat, li: nat)
    requires !OwnAfter(locks, lock, bi, li)
    ensures !UnlockedAfter(locks, lock, [bi], bi, li)
  {
  }

  lemma ReleasedCovers(g: seq<Block>, unlocks: seq<bool>, locks: seq<LockCall>, lock: string, bi: nat, li: nat, s: nat)
    requires WellFormed(g) && |unlocks| == |g| && Edge(g, bi, s)
    requires forall b :: 0 <= b < |g| ==> (unlocks[b] <==> HoldsUnlock(locks, lock, b))
    requires !OwnAfter(locks, lock, bi, li) && Released(g, locks, lock, bi, li)
    ensures Covered(g, unlocks, s)
  {
    forall q | ExitPath(g, q, s)
      ensures exists k :: 0 <= k < |q| && unlocks[q[k]]
    {
      var longer := [bi] + q;
      forall k | 0 <= k < |longer| - 1
        ensures Edge(g, longer[k], longer[k + 1])
      {
        if k > 0 { assert Edge(g, q[k - 1], q[k - 1 + 1]); }
      }
      assert ExitPath(g, longer, bi);
      var c :| c in locks && Site(c, lock, false) && After(c, longer, bi, li);
      assert longer[1..] == q;
      var k :| 0 <= k < |q| && q[k] == c.block;
      assert HoldsUnlock(locks, lock, q[k]);
    }
  }

  lemma CoveredReleases(g: seq<Block>, unlocks: seq<bool>, locks: seq<LockCall>, lock: string, bi: nat, li: nat)
    requires WellFormed(g) && |unlocks| == |g| && bi < |g| && g[bi].succs != []
    requires forall b :: 0 <= b < |g| ==> (unlocks[b] <==> HoldsUnlock(locks, lock, b))
    requires forall s :: s in g[bi].succs ==> Covered(g, unlocks, s)
    ensures Released(g, locks, lock, bi, li)
  {
    forall q | ExitPath(g, q, bi)
      ensures UnlockedAfter(locks, lock, q, bi, li)
    {
      assert |q| > 1;
      assert Edge(g, q[0], q[0 + 1]);
      ExitRest(g, q);
      var k :| 0 <= k < |q[1..]| && unlocks[q[1..][k]];
      var c :| c in locks && Site(c, lock, false) && c.block == q[1..][k];
      assert After(c, q, bi, li);
    }
  }

  /** An earlier line of the access's block, or a block that strictly dominates it. */
  predicate Ahead(c: LockCall, dominators: set<nat>, bi: nat, li: nat) {
    (c.block == bi && c.line < li) || (c.block != bi && c.block in dominators)
  }

  /** Is `lock` held at line li of block bi? */
  method HeldAt(g: seq<Block>, dom: seq<set<nat>>, locks: seq<LockCall>, bi: nat, li: nat, lock: string)
    returns (held: bool)
    requires WellFormed(g) && Exact(g, dom) && bi < |g|
    requires forall c :: c in locks ==> c.block < |g|
    ensures held <==>
            && Dominated(g, locks, lock, bi, li)
            && Released(g, locks, lock, bi, li)
            && (g[bi].end == Tagged ==> OwnAfter(locks, lock, bi, li))
  {
    SitesListed(g, dom, locks, lock, bi, li);
    if !exists k :: 0 <= k < |locks| && Site(locks[k], lock, true) && Ahead(locks[k], dom[bi], bi, li) {
      return false;
    }
    var unlocks := seq(|g|, _ => false);
    for k := 0 to |locks|
      invariant |unlocks| == |g|
      invariant forall b :: 0 <= b < |g| ==> (unlocks[b] <==> HoldsUnlock(locks[..k], lock, b))
    {
      if Site(locks[k], lock, false) {
        unlocks := unlocks[locks[k].block := true];
      }
      forall b | 0 <= b < |g|
        ensures unlocks[b] <==> HoldsUnlock(locks[..k + 1], lock, b)
      {
        OneMoreSite(locks, lock, k, b);
      }
    }
    assert locks[..|locks|] == locks;
    var covered := Coverage(g, unlocks);
    if OwnAfter(locks, lock, bi, li) {
      OwnReleases(g, locks, lock, bi, li);
      return true;
    }
    if g[bi].end == Tagged {
      return false;
    }
    ReleasedNext(g, unlocks, locks, lock, bi, li);
    if g[bi].end == Unreachable {
      return true;
    }
    if g[bi].succs == [] {
      return false;
    }
    assert forall s :: s in g[bi].succs ==> Edge(g, bi, s);
    return forall k :: 0 <= k < |g[bi].succs| ==> covered[g[bi].succs[k]];
  }

  lemma SitesListed(g: seq<Block>, dom: seq<set<nat>>, locks: seq<LockCall>, lock: string, bi: nat, li: nat)
    requires Exact(g, dom) && bi < |g| && forall c :: c in locks ==> c.block < |g|
    ensures Dominated(g, locks, lock, bi, li) <==>
            exists k :: 0 <= k < |locks| && Site(locks[k], lock, true) && Ahead(locks[k], dom[bi], bi, li)
  {
    if Dominated(g, locks, lock, bi, li) {
      var c :| c in locks && Site(c, lock, true) && Dominates(g, c, bi, li);
      var k :| 0 <= k < |locks| && locks[k] == c;
    }
  }

  lemma OneMoreSite(locks: seq<LockCall>, lock: string, k: nat, b: nat)
    requires k < |locks|
    ensures HoldsUnlock(locks[..k + 1], lock, b) <==>
            HoldsUnlock(locks[..k], lock, b) || (Site(locks[k], lock, false) && locks[k].block == b)
  {
    assert locks[..k + 1] == locks[..k] + [locks[k]];
  }

  lemma OwnReleases(g: seq<Block>, locks: seq<LockCall>, lock: string, bi: nat, li: nat)
    requires OwnAfter(locks, lock, bi, li)
    ensures Released(g, locks, lock, bi, li)
  {
    var k :| 0 <= k < |locks| && Site(locks[k], lock, false) && locks[k].block == bi && locks[k].line > li;
    forall q | ExitPath(g, q, bi)
      ensures UnlockedAfter(locks, lock, q, bi, li)
    {
      assert After(locks[k], q, bi, li);
    }
  }

  /** What a `true` answer promises: along any run of the function through the access, a lock call comes first
      and an unlock call follows before it is left. */
  lemma HeldBrackets(g: seq<Block>, locks: seq<LockCall>, lock: string, bi: nat, li: nat, p: seq<nat>, q: seq<nat>)
    requires WellFormed(g) && bi < |g|
    requires Dominated(g, locks, lock, bi, li) && Released(g, locks, lock, bi, li)
    requires EntryPath(g, p, bi) && ExitPath(g, q, bi)
    ensures LockedBefore(locks, lock, p, bi, li) && UnlockedAfter(locks, lock, q, bi, li)
  {
    var c :| c in locks && Site(c, lock, true) && Dominates(g, c, bi, li);
    assert RootPath(g, p, bi);
    assert Before(c, p, bi, li) by {
      if c.block != bi {
        assert c.block in p;
        assert p == p[..|p| - 1] + [bi];
      }
    }
  }

  /** The end of a block that locks and then has the access: a dead end either way, but its tag makes the answer
      false. */
  lemma TaggedEnd(end: End)
    requires end != Other
    ensures var g, locks := [Block([], end)], [LockCall(0, 0, "cell", true)];
            && Dominated(g, locks, "cell", 0, 1) && Released(g, locks, "cell", 0, 1)
            && ((g[0].end == Tagged ==> OwnAfter(locks, "cell", 0, 1)) <==> end == Unreachable)
  {
    var g, locks := [Block([], end)], [LockCall(0, 0, "cell", true)];
    assert locks[0] in locks && Site(locks[0], "cell", true) && Dominates(g, locks[0], 0, 1);
    forall q ensures !ExitPath(g, q, 0) {}
  }
}
