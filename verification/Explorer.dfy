/** The explicit-state search: least depths, least thread changes, the bounded set, and the steps a range blocks. */
module Explorer {
  import opened Words
  import opened Models

  datatype Refusal = TooLarge | Unreadable
  datatype Outcome<+T> = Done(value: T) | Refused(why: Refusal)

  function GraphOf(m: Model, steps: seq<Step>, inits: set<State>): Graph {
    Graph(inits, s => Succ(m, steps, s))
  }

  // --- what the searches compute ------------------------------------------------------------------

  ghost predicate ExactDepths(G: Graph, dist: map<State, nat>) {
    && (forall s :: s in dist ==> Reaches(G, s, dist[s]))
    && (forall s, n :: Reaches(G, s, n) ==> s in dist && dist[s] <= n)
  }

  predicate Within(n: nat, bound: Option<nat>) {
    bound.None? || n <= bound.value
  }

  ghost predicate Attained(G: Graph, k: Key, c: nat, bound: Option<nat>) {
    exists n :: Within(n, bound) && EndsAt(G, k, n, c)
  }

  /** The least thread changes over the runs of at most `bound` steps ending with each key. */
  ghost predicate ExactChanges(G: Graph, f: map<Key, nat>, bound: Option<nat>) {
    && (forall k :: k in f ==> Attained(G, k, f[k], bound))
    && (forall k, n, c :: EndsAt(G, k, n, c) && Within(n, bound) ==> k in f && f[k] <= c)
  }

  /** A run, of no steps or more, that ends in a state. */
  ghost predicate EndsIn(G: Graph, s: State, n: nat, c: nat) {
    exists ss, ts :: IsRun(G, ss, ts) && |ts| == n && ss[n] == s && Changes(ts) == c
  }

  /** The least thread changes over all runs ending in each reachable state. */
  ghost predicate ExactSwitches(G: Graph, f: map<State, nat>) {
    && (forall s :: s in f ==> exists n :: EndsIn(G, s, n, f[s]))
    && (forall s, n, c :: EndsIn(G, s, n, c) ==> s in f && f[s] <= c)
  }

  /** The states some run of at most `K` steps with at most `D` thread changes ends in. */
  ghost predicate ExactInside(G: Graph, inside: set<State>, K: nat, D: nat) {
    forall s :: s in inside <==> exists n: nat, c: nat :: n <= K && c <= D && EndsIn(G, s, n, c)
  }

  // --- closure gives the lower bounds ----------------------------------------------------------------

  ghost predicate Spreads(G: Graph, dist: map<State, nat>, s: State)
    requires s in dist
  {
    forall t, s1 :: Edge(G, s, t, s1) ==> s1 in dist && dist[s1] <= dist[s] + 1
  }

  lemma {:induction false} DepthBound(G: Graph, dist: map<State, nat>, s: State, n: nat)
    requires forall s0 :: s0 in G.inits ==> s0 in dist && dist[s0] == 0
    requires forall s0 :: s0 in dist ==> Spreads(G, dist, s0)
    requires Reaches(G, s, n)
    ensures s in dist && dist[s] <= n
    decreases n
  {
    var ss, ts :| IsRun(G, ss, ts) && |ts| == n && ss[n] == s;
    if n > 0 {
      RunLess(G, ss, ts);
      assert ss[..n][n - 1] == ss[n - 1];
      DepthBound(G, dist, ss[n - 1], n - 1);
    }
  }

  /** Every move out of a key's state is priced. */
  ghost predicate Settled(G: Graph, f: map<Key, nat>, k: Key)
    requires k in f
  {
    forall t: nat, s1 :: Edge(G, k.0, t, s1) ==> (s1, t) in f && f[(s1, t)] <= f[k] + Cost(k.1, t)
  }

  ghost predicate Seeded(G: Graph, f: map<Key, nat>) {
    forall s, t: nat, s1 :: s in G.inits && Edge(G, s, t, s1) ==> (s1, t) in f && f[(s1, t)] == 0
  }

  lemma {:induction false} ChangesBound(G: Graph, f: map<Key, nat>, k: Key, n: nat, c: nat)
    requires Seeded(G, f) && EndsAt(G, k, n, c) && forall k0 :: k0 in f ==> Settled(G, f, k0)
    ensures k in f && f[k] <= c
    decreases n
  {
    var ss, ts :| IsRun(G, ss, ts) && |ts| == n > 0 && ss[n] == k.0 && ts[n - 1] == k.1 && Changes(ts) == c;
    RunLess(G, ss, ts);
    if n > 1 {
      var k0 := (ss[n - 1], ts[n - 2]);
      assert ss[..n][n - 1] == k0.0 && ts[..n - 1][n - 2] == k0.1;
      assert EndsAt(G, k0, n - 1, Changes(ts[..n - 1]));
      ChangesBound(G, f, k0, n - 1, Changes(ts[..n - 1]));
      assert Settled(G, f, k0);
    }
  }

  // --- the search ------------------------------------------------------------------------------------

  predicate KeyOf(st: Step, key: StepKey) {
    (st.thread, st.name) == key
  }

  /** A step of the key's name leaves its range at variable `v` from a state. */
  ghost predicate LeavesAt(m: Model, steps: seq<Step>, key: StepKey, s: State, v: nat) {
    exists i :: 0 <= i < |steps| && KeyOf(steps[i], key) && Fire(m, steps[i], s).Leaves? && Fire(m, steps[i], s).v == v
  }

  /** The smallest variable each step can take out of its range from a state of a set. */
  ghost predicate ExactBlocked(m: Model, steps: seq<Step>, S: set<State>, blocked: map<StepKey, nat>) {
    && (forall key :: key in blocked ==> LeavesFrom(m, steps, key, S, blocked[key]))
    && (forall key, s, v :: s in S && LeavesAt(m, steps, key, s, v) ==> Least(blocked, key, v))
  }

  ghost predicate LeavesFrom(m: Model, steps: seq<Step>, key: StepKey, S: set<State>, v: nat) {
    exists s :: s in S && LeavesAt(m, steps, key, s, v)
  }

  predicate Least(blocked: map<StepKey, nat>, key: StepKey, v: nat) {
    key in blocked && blocked[key] <= v
  }

  class Search {
    const m: Model
    const steps: seq<Step>
    var cache: map<State, seq<(nat, State)>>
    var blocked: map<StepKey, nat>

    constructor (m: Model, steps: seq<Step>)
      ensures Valid() && this.m == m && this.steps == steps && cache == map[]
    {
      this.m, this.steps := m, steps;
      cache, blocked := map[], map[];
    }

    /** The cache holds the successors of the states expanded so far, and `blocked` what they block. */
    ghost predicate Valid()
      reads this
    {
      && (forall s :: s in cache ==> Succ(m, steps, s) == Some(cache[s]))
      && ExactBlocked(m, steps, cache.Keys, blocked)
    }

    method Successors(s: State) returns (r: Option<seq<(nat, State)>>)
      requires Valid()
      modifies this
      ensures r.Some? ==> Valid() && cache.Keys == old(cache).Keys + {s}
      ensures r == Succ(m, steps, s)
      ensures s in old(cache) ==> r.Some? && cache == old(cache) && blocked == old(blocked)
    {
      if s in cache { return Some(cache[s]); }
      var b;
      r, b := FireAll(m, steps, s, blocked, cache.Keys);
      blocked := b;
      if r.Some? {
        cache := cache[s := r.value];
        assert cache.Keys == old(cache).Keys + {s};
      }
    }

    /** Every step of a state: its successors, and the variables the steps take out of range. */
    static method FireAll(m: Model, steps: seq<Step>, s: State, blocked: map<StepKey, nat>, ghost S: set<State>)
      returns (r: Option<seq<(nat, State)>>, b: map<StepKey, nat>)
      requires ExactBlocked(m, steps, S, blocked)
      ensures r == Succ(m, steps, s) && (r.Some? ==> ExactBlocked(m, steps, S + {s}, b))
    {
      var moves: seq<(nat, State)> := [];
      b := blocked;
      var i := 0;
      NoneFired(m, steps, S, s, b);
      while i < |steps|
        invariant 0 <= i <= |steps| && Succ(m, steps[..i], s) == Some(moves) && Growing(m, steps, S, s, i, b)
      {
        assert steps[..i + 1][..i] == steps[..i];
        var x := Fire(m, steps[i], s);
        if x.Problem? {
          ProblemStays(m, steps, i + 1, s);
          return None, b;
        }
        OneFired(m, steps, S, s, i, b);
        if x.Leaves? {
          var key := (steps[i].thread, steps[i].name);
          if key !in b || x.v < b[key] { b := b[key := x.v]; }
        } else if x.Moves? {
          moves := moves + [(steps[i].thread, x.to)];
        }
        i := i + 1;
      }
      assert steps[..i] == steps;
      AllFired(m, steps, S, s, b);
      r := Some(moves);
    }

    // --- breadth first -----------------------------------------------------------------------------

    method Depths(inits: seq<State>) returns (r: Outcome<map<State, nat>>)
      requires Valid() && |inits| <= 200000
      modifies this
      ensures var G := GraphOf(m, steps, Elements(inits));
              match r
              case Done(dist) => Valid() && ExactDepths(G, dist)
                  && dist.Keys <= cache.Keys <= old(cache).Keys + dist.Keys
              case Refused(TooLarge) => TooMany(G)
              case Refused(Unreadable) => Stuck(G)
    {
      ghost var G := GraphOf(m, steps, Elements(inits));
      var dist: map<State, nat> := map s | s in inits :: 0;
      var q := inits;
      FirstFrontier(G, inits, dist, cache.Keys);
      while q != []
        invariant Valid() && |dist| <= STATE_CAP && Frontier(G, dist, q, cache.Keys)
                  && cache.Keys <= old(cache).Keys + dist.Keys
        decreases STATE_CAP - |dist|, |q|
      {
        var s := q[0];
        ghost var C, d0 := cache.Keys, dist.Keys;
        var moves := Successors(s);
        if moves.None? {
          StuckAt(G, dist, s);
          return Refused(Unreadable);
        }
        FrontierMore(G, dist, q, C, cache.Keys);
        PopFront(G, dist, q, cache.Keys);
        var fits;
        dist, q, fits := Spread(G, cache.Keys, s, moves.value, dist, q[1..]);
        if !fits { return Refused(TooLarge); }
        OneMore(cache.Keys, C, s, old(cache).Keys, d0, dist.Keys);
      }
      Deepest(G, dist, cache.Keys);
      r := Done(dist);
    }

    /** The moves of one state: each state not seen before is one deeper, and waits at the back of the queue. */
    static method Spread(ghost G: Graph, ghost C: set<State>, s: State, moves: seq<(nat, State)>,
            dist: map<State, nat>, q: seq<State>) returns (d: map<State, nat>, q1: seq<State>, fits: bool)
      requires Expanding(G, dist, q, s, moves, 0, C) && |dist| <= STATE_CAP
      ensures dist.Keys <= d.Keys && |dist| <= |d| && (|d| == |dist| ==> q1 == q)
      ensures if fits then |d| <= STATE_CAP && Frontier(G, d, q1, C) else TooMany(G)
    {
      d, q1, fits := dist, q, true;
      var i := 0;
      while i < |moves|
        invariant 0 <= i <= |moves| && |d| <= STATE_CAP && Expanding(G, d, q1, s, moves, i, C)
        invariant dist.Keys <= d.Keys && |dist| <= |d| && (|d| == |dist| ==> q1 == q)
      {
        var ns := moves[i].1;
        if ns in d {
          KnownState(G, d, q1, s, moves, i, C);
        } else {
          NewState(G, d, q1, s, moves, i, C);
          d := d[ns := d[s] + 1];
          q1 := q1 + [ns];
          if |d| > STATE_CAP {
            Crowd(G, d, q1, s, moves, i + 1, C);
            fits := false;
            return;
          }
        }
        i := i + 1;
      }
      Expanded(G, d, q1, s, moves, C);
    }

    // --- least thread changes, over runs of any length ---------------------------------------------

    /** The first real step of every run, at no change; `order` has each key once, the latest first. */
    method FirstMoves(inits: seq<State>) returns (first: map<Key, nat>, order: seq<Key>)
      requires Valid() && Elements(inits) <= cache.Keys
      modifies this
      ensures Valid() && cache == old(cache)
      ensures SeededBy(GraphOf(m, steps, Elements(inits)), inits, |inits|, first, order)
    {
      ghost var G := GraphOf(m, steps, Elements(inits));
      first, order := map[], [];
      var i := 0;
      while i < |inits|
        invariant 0 <= i <= |inits| && Valid() && cache == old(cache)
        invariant SeededBy(G, inits, i, first, order)
      {
        var moves := Successors(inits[i]);
        first, order := SeedFrom(G, inits, i, moves.value, first, order);
        i := i + 1;
      }
    }

    static method SeedFrom(ghost G: Graph, ghost inits: seq<State>, ghost i: nat, moves: seq<(nat, State)>,
            first: map<Key, nat>, order: seq<Key>) returns (f: map<Key, nat>, o: seq<Key>)
      requires i < |inits| && SeededBy(G, inits, i, first, order) && G.inits == Elements(inits)
               && G.succ(inits[i]) == Some(moves)
      ensures SeededBy(G, inits, i + 1, f, o)
    {
      f, o := first, order;
      var j := 0;
      while j < |moves|
        invariant 0 <= j <= |moves| && SeededBy(G, inits, i, f, o)
        invariant forall l :: 0 <= l < j ==> (moves[l].1, moves[l].0) in f
      {
        var k := (moves[j].1, moves[j].0);
        assert Edge(G, inits[i], moves[j].0, moves[j].1);
        EndsFirst(G, inits[i], moves[j].0, moves[j].1);
        if k !in f {
          f := f[k := 0];
          o := [k] + o;
        }
        j := j + 1;
      }
    }

    method Switches(inits: seq<State>, ghost R: set<State>) returns (sw: map<Key, nat>)
      requires Valid() && Elements(inits) <= R <= cache.Keys && ClosedUnder(GraphOf(m, steps, Elements(inits)), R)
      modifies this
      ensures Valid() && cache == old(cache) && ExactChanges(GraphOf(m, steps, Elements(inits)), sw, None)
    {
      ghost var G := GraphOf(m, steps, Elements(inits));
      var dq;
      sw, dq := FirstMoves(inits);
      ghost var K := Keys(R, steps);
      FirstPending(m, steps, G, inits, R, K, sw, dq);
      while dq != []
        invariant Valid() && cache == old(cache) && Pending(G, R, K, sw, dq)
        decreases Slack(K, sw), |dq|
      {
        var k := dq[0];
        var moves := Successors(k.0);
        PopPending(G, R, K, sw, dq);
        KeysHave(m, steps, G, R, K, k.0, moves.value);
        sw, dq := Relax(G, R, K, k, moves.value, sw, dq[1..]);
      }
      LeastChanges(G, R, K, sw);
    }

    /** The moves out of one key: an improved key goes to the front at no cost, to the back at one. */
    static method Relax(ghost G: Graph, ghost R: set<State>, ghost K: set<Key>, k: Key, moves: seq<(nat, State)>,
            sw: map<Key, nat>, dq: seq<Key>) returns (w: map<Key, nat>, q: seq<Key>)
      requires Relaxing(G, R, K, sw, dq, k, moves, 0) && ClosedUnder(G, R)
      requires forall j :: 0 <= j < |moves| ==> (moves[j].1, moves[j].0) in K
      ensures Pending(G, R, K, w, q)
      ensures (w == sw && q == dq) || Slack(K, w) < Slack(K, sw)
    {
      w, q := sw, dq;
      var c := sw[k];
      var i := 0;
      while i < |moves|
        invariant 0 <= i <= |moves| && Relaxing(G, R, K, w, q, k, moves, i) && w[k] == c
        invariant (w == sw && q == dq) || Slack(K, w) < Slack(K, sw)
      {
        var k1 := (moves[i].1, moves[i].0);
        var nc := c + Cost(k.1, moves[i].0);
        if k1 !in w || nc < w[k1] {
          var q1 := if moves[i].0 == k.1 then [k1] + q else q + [k1];
          Improve(G, R, K, w, q, k, moves, i, k1, nc, q1);
          CardLess(w, K);
          LessSlack(K, w, k1, nc);
          w, q := w[k1 := nc], q1;
        } else {
          NoImprovement(G, R, K, w, q, k, moves, i);
        }
        i := i + 1;
      }
      Relaxed(G, R, K, w, q, k, moves);
    }

    /** The least over the threads that can move into a state; an initial state needs no change. */
    static method PerState(sw: map<Key, nat>, inits: seq<State>, ghost G: Graph) returns (least: map<State, nat>)
      requires G.inits == Elements(inits) && ExactChanges(G, sw, None)
      ensures ExactSwitches(G, least)
    {
      least := map[];
      var rest := sw.Keys;
      while rest != {}
        invariant rest <= sw.Keys && LeastOver(sw, sw.Keys - rest, least)
        decreases |rest|
      {
        var k: Key :| k in rest;
        Without(sw.Keys, rest, k);
        OneOver(sw, sw.Keys - rest, k, least);
        if k.0 !in least || sw[k] < least[k.0] { least := least[k.0 := sw[k]]; }
        rest := rest - {k};
      }
      assert sw.Keys - rest == sw.Keys;
      ghost var over := least;
      least := Zeroed(inits, least);
      LeastSwitches(G, sw, inits, over, least);
    }

    static method Zeroed(inits: seq<State>, over: map<State, nat>) returns (least: map<State, nat>)
      ensures forall s :: s in over || s in inits <==> s in least
      ensures forall s :: s in least ==> least[s] == if s in inits then 0 else over[s]
    {
      least := over;
      var i := 0;
      while i < |inits|
        invariant 0 <= i <= |inits|
        invariant forall s :: s in over || s in inits[..i] <==> s in least
        invariant forall s :: s in least ==> least[s] == if s in inits[..i] then 0 else over[s]
      {
        least := least[inits[i] := 0];
        i := i + 1;
      }
      assert inits[..i] == inits;
    }

    // --- the bounded set, layer by layer ---------------------------------------------------------------

    /** Layer 1 is always built; each later layer moves only the keys the one before it improved. */
    method Layers(inits: seq<State>, ghost R: set<State>) returns (best: map<Key, nat>)
      requires Valid() && Elements(inits) <= R <= cache.Keys && ClosedUnder(GraphOf(m, steps, Elements(inits)), R)
      modifies this
      ensures Valid() && cache == old(cache)
      ensures ExactChanges(GraphOf(m, steps, Elements(inits)), best, Some(if m.depth == 0 then 1 else m.depth))
    {
      ghost var G := GraphOf(m, steps, Elements(inits));
      var first, order := FirstMoves(inits);
      var layer := first;
      best := first;
      FirstLayer(G, inits, first, order, R);
      var k := 1;
      while k < m.depth
        invariant 1 <= k && (k <= m.depth || k == 1) && Valid() && cache == old(cache) && Layered(G, R, best, layer, k)
        decreases m.depth - k
      {
        var nxt := NextLayer(layer, G, R);
        var best1, layer1 := Merge(best, nxt);
        NextLayered(G, R, best, layer, nxt, best1, layer1, k);
        best, layer := best1, layer1;
        k := k + 1;
      }
    }

    /** Every move out of a layer, each key at its least cost. */
    method NextLayer(layer: map<Key, nat>, ghost G: Graph, ghost R: set<State>) returns (nxt: map<Key, nat>)
      requires Valid() && G == GraphOf(m, steps, G.inits) && R <= cache.Keys && forall x :: x in layer ==> x.0 in R
      modifies this
      ensures Valid() && cache == old(cache) && NextOf(G, layer, layer.Keys, nxt)
    {
      nxt := map[];
      var rest := layer.Keys;
      while rest != {}
        invariant rest <= layer.Keys && Valid() && cache == old(cache) && NextOf(G, layer, layer.Keys - rest, nxt)
        decreases |rest|
      {
        var k: Key :| k in rest;
        var moves := Successors(k.0);
        nxt := MoveKey(G, layer, layer.Keys - rest, k, moves.value, nxt);
        assert layer.Keys - (rest - {k}) == (layer.Keys - rest) + {k};
        rest := rest - {k};
      }
      assert layer.Keys - rest == layer.Keys;
    }

    static method MoveKey(ghost G: Graph, layer: map<Key, nat>, ghost D: set<Key>, k: Key, moves: seq<(nat, State)>,
            nxt: map<Key, nat>) returns (f: map<Key, nat>)
      requires k in layer && D <= layer.Keys && G.succ(k.0) == Some(moves) && NextOf(G, layer, D, nxt)
      ensures NextOf(G, layer, D + {k}, f)
    {
      f := nxt;
      var i := 0;
      MovingStart(G, layer, D, k, moves, f);
      while i < |moves|
        invariant 0 <= i <= |moves| && MovingKey(G, layer, D, k, moves, i, f)
      {
        var y := (moves[i].1, moves[i].0);
        var nc := layer[k] + Cost(k.1, moves[i].0);
        MoveOne(G, layer, D, k, moves, i, f, y, nc);
        if y !in f || nc < f[y] { f := f[y := nc]; }
        i := i + 1;
      }
      MovedKey(G, layer, D, k, moves, f);
    }

    /** Only the keys the new layer makes cheaper are kept in it. */
    static method Merge(best: map<Key, nat>, nxt: map<Key, nat>) returns (best1: map<Key, nat>, layer: map<Key, nat>)
      ensures Merged(best, nxt, nxt.Keys, best1, layer)
    {
      best1, layer := best, map[];
      var rest := nxt.Keys;
      while rest != {}
        invariant rest <= nxt.Keys && Merged(best, nxt, nxt.Keys - rest, best1, layer)
        decreases |rest|
      {
        var k: Key :| k in rest;
        if k !in best1 || nxt[k] < best1[k] {
          best1 := best1[k := nxt[k]];
          layer := layer[k := nxt[k]];
        }
        rest := rest - {k};
      }
    }

    method Inside(inits: seq<State>, best: map<Key, nat>, ghost G: Graph, ghost K: nat) returns (inside: set<State>)
      requires G.inits == Elements(inits) && ExactChanges(G, best, Some(K))
      ensures ExactInside(G, inside, K, m.preempt)
    {
      inside := Elements(inits);
      var rest := best.Keys;
      while rest != {}
        invariant rest <= best.Keys
        invariant forall s ::
                    s in inside <==>
                    s in inits || exists k: Key :: k in best && k !in rest && k.0 == s && best[k] <= m.preempt
        decreases |rest|
      {
        var k: Key :| k in rest;
        if best[k] <= m.preempt { inside := inside + {k.0}; }
        rest := rest - {k};
      }
      InsideIs(G, inits, best, inside, K, m.preempt);
    }

    // --- the four readings ------------------------------------------------------------------------------

    method Explore(inits: seq<State>) returns (r: Outcome<Report>)
      requires Valid() && cache == map[] && |inits| <= 200000
      modifies this
      ensures var G := GraphOf(m, steps, Elements(inits));
              match r
              case Done(rep) => ExactReport(m, steps, G, rep)
              case Refused(TooLarge) => TooMany(G)
              case Refused(Unreadable) => Stuck(G)
    {
      ghost var G := GraphOf(m, steps, Elements(inits));
      var d := Depths(inits);
      if d.Refused? { return Refused(d.why); }
      ghost var R := d.value.Keys;
      assert R == cache.Keys;
      ReachableClosed(G, d.value);
      var sw := Switches(inits, R);
      var least := PerState(sw, inits, G);
      var best := Layers(inits, R);
      var inside := Inside(inits, best, G, if m.depth == 0 then 1 else m.depth);
      r := Done(Report(d.value, least, inside, blocked));
    }
  }

  datatype Report = Report(dist: map<State, nat>, switches: map<State, nat>, inside: set<State>, blocked: map<StepKey,
          nat>)

  /** Every step can be computed in every state of a set. */
  predicate Computable(G: Graph, S: set<State>) {
    forall s :: s in S ==> G.succ(s).Some?
  }

  /** What a finished search reports: all four readings exact. */
  ghost predicate ExactReport(m: Model, steps: seq<Step>, G: Graph, rep: Report) {
    && ExactDepths(G, rep.dist) && Computable(G, rep.dist.Keys)
    && ExactSwitches(G, rep.switches)
    && ExactInside(G, rep.inside, if m.depth == 0 then 1 else m.depth, m.preempt)
    && ExactBlocked(m, steps, rep.dist.Keys, rep.blocked)
  }

  lemma ReachableClosed(G: Graph, dist: map<State, nat>)
    requires ExactDepths(G, dist)
    ensures ClosedUnder(G, dist.Keys)
  {
    forall s | s in G.inits ensures s in dist { ReachesInit(G, s); }
    forall s, t: nat, s1 | s in dist && Edge(G, s, t, s1) ensures s1 in dist { ReachesNext(G, s, dist[s], t, s1); }
  }

  /** A key is reached at a cost by one step from a key of `D`. */
  ghost predicate OneStep(G: Graph, layer: map<Key, nat>, D: set<Key>, y: Key, c: nat) {
    exists x: Key :: x in D && x in layer && Edge(G, x.0, y.1, y.0) && c == layer[x] + Cost(x.1, y.1)
  }

  ghost predicate NoDearer(f: map<Key, nat>, y: Key, c: nat) {
    y in f && f[y] <= c
  }

  /** The moves out of a set of keys of a layer. */
  ghost predicate NextOf(G: Graph, layer: map<Key, nat>, D: set<Key>, nxt: map<Key, nat>)
    requires D <= layer.Keys
  {
    && (forall y: Key :: y in nxt ==> OneStep(G, layer, D, y, nxt[y]))
    && (forall x: Key, t: nat, s1 :: x in D && Edge(G, x.0, t, s1) ==> NoDearer(nxt, (s1, t), layer[x] + Cost(x.1, t)))
  }

  ghost predicate MovingKey(G: Graph, layer: map<Key, nat>, D: set<Key>, k: Key, moves: seq<(nat, State)>, i: nat,
          f: map<Key, nat>)
    requires D <= layer.Keys && k in layer && i <= |moves|
  {
    && (forall y: Key :: y in f ==> OneStep(G, layer, D + {k}, y, f[y]))
    && (forall x: Key, t: nat, s1 :: x in D && Edge(G, x.0, t, s1) ==> NoDearer(f, (s1, t), layer[x] + Cost(x.1, t)))
    && (forall j :: 0 <= j < i ==> NoDearer(f, (moves[j].1, moves[j].0), layer[k] + Cost(k.1, moves[j].0)))
  }

  lemma OneStepMore(G: Graph, layer: map<Key, nat>, D: set<Key>, k: Key, y: Key, c: nat)
    requires OneStep(G, layer, D, y, c)
    ensures OneStep(G, layer, D + {k}, y, c)
  {
    var x: Key :| x in D && x in layer && Edge(G, x.0, y.1, y.0) && c == layer[x] + Cost(x.1, y.1);
    assert x in D + {k};
  }

  lemma MovingStart(G: Graph, layer: map<Key, nat>, D: set<Key>, k: Key, moves: seq<(nat, State)>, f: map<Key, nat>)
    requires D <= layer.Keys && k in layer && NextOf(G, layer, D, f)
    ensures MovingKey(G, layer, D, k, moves, 0, f)
  {
    forall y: Key | y in f ensures OneStep(G, layer, D + {k}, y, f[y]) { OneStepMore(G, layer, D, k, y, f[y]); }
  }

  lemma MoveOne(G: Graph, layer: map<Key, nat>, D: set<Key>, k: Key, moves: seq<(nat, State)>, i: nat,
          f: map<Key, nat>, y: Key, nc: nat)
    requires D <= layer.Keys && k in layer && G.succ(k.0) == Some(moves) && i < |moves|
             && MovingKey(G, layer, D, k, moves, i, f)
    requires y == (moves[i].1, moves[i].0) && nc == layer[k] + Cost(k.1, y.1)
    ensures MovingKey(G, layer, D, k, moves, i + 1, if y !in f || nc < f[y] then f[y := nc] else f)
  {
    assert moves[i] == (y.1, y.0) && Edge(G, k.0, y.1, y.0);
    if y !in f || nc < f[y] { CheaperKey(G, layer, D, k, moves, i, f, y, nc); }
  }

  lemma CheaperKey(G: Graph, layer: map<Key, nat>, D: set<Key>, k: Key, moves: seq<(nat, State)>, i: nat,
          f: map<Key, nat>, y: Key, nc: nat)
    requires D <= layer.Keys && k in layer && i < |moves| && MovingKey(G, layer, D, k, moves, i, f)
             && Edge(G, k.0, y.1, y.0)
    requires y == (moves[i].1, moves[i].0) && nc == layer[k] + Cost(k.1, y.1) && (y !in f || nc < f[y])
    ensures MovingKey(G, layer, D, k, moves, i + 1, f[y := nc])
  {
    forall z, c | NoDearer(f, z, c) ensures NoDearer(f[y := nc], z, c) {}
    assert k in D + {k};
    assert OneStep(G, layer, D + {k}, y, nc);
  }

  lemma MovedKey(G: Graph, layer: map<Key, nat>, D: set<Key>, k: Key, moves: seq<(nat, State)>, f: map<Key, nat>)
    requires D <= layer.Keys && k in layer && G.succ(k.0) == Some(moves) && MovingKey(G, layer, D, k, moves, |moves|, f)
    ensures NextOf(G, layer, D + {k}, f)
  {
    forall t: nat, s1 | Edge(G, k.0, t, s1) ensures NoDearer(f, (s1, t), layer[k] + Cost(k.1, t)) {
      var j :| 0 <= j < |moves| && moves[j] == (t, s1);
      assert NoDearer(f, (moves[j].1, moves[j].0), layer[k] + Cost(k.1, moves[j].0));
    }
  }

  predicate Cheaper(best: map<Key, nat>, nxt: map<Key, nat>, k: Key) {
    k in nxt && (k !in best || nxt[k] < best[k])
  }

  /** The new costs once the keys of `D` are looked at; the layer is what became cheaper. */
  ghost predicate Merged(best: map<Key, nat>, nxt: map<Key, nat>, D: set<Key>, best1: map<Key, nat>,
          layer: map<Key, nat>) {
    && (forall k :: k in best1 <==> k in best || (k in D && Cheaper(best, nxt, k)))
    && (forall k :: k in layer <==> k in D && Cheaper(best, nxt, k))
    && (forall k :: k in layer ==> k in best1 && layer[k] == nxt[k] == best1[k])
    && (forall k :: k in best1 && k !in layer ==> k in best && best1[k] == best[k])
  }

  lemma MergedLess(best: map<Key, nat>, nxt: map<Key, nat>, best1: map<Key, nat>, layer: map<Key, nat>)
    requires Merged(best, nxt, nxt.Keys, best1, layer)
    ensures forall k :: k in best ==> k in best1 && best1[k] <= best[k]
    ensures forall k :: k in nxt ==> k in best1 && best1[k] <= nxt[k]
  {}

  lemma NextLayered(G: Graph, R: set<State>, best: map<Key, nat>, layer: map<Key, nat>, nxt: map<Key, nat>,
          best1: map<Key, nat>, layer1: map<Key, nat>, k: nat)
    requires Layered(G, R, best, layer, k) && k >= 1 && ClosedUnder(G, R) && NextOf(G, layer, layer.Keys, nxt)
    requires Merged(best, nxt, nxt.Keys, best1, layer1)
    ensures Layered(G, R, best1, layer1, k + 1)
  {
    MergedLess(best, nxt, best1, layer1);
    forall x | x in best1 ensures Attained(G, x, best1[x], Some(k + 1)) {
      NextAttained(G, best, layer, nxt, best1, layer1, k, x);
    }
    forall x, n, c | EndsAt(G, x, n, c) && Within(n, Some(k + 1)) ensures x in best1 && best1[x] <= c {
      NextComplete(G, best, layer, nxt, best1, k, x, n, c);
    }
    forall x | x in layer1 ensures x.0 in R {
      var x0: Key :| x0 in layer && Edge(G, x0.0, x.1, x.0) && nxt[x] == layer[x0] + Cost(x0.1, x.1);
    }
    forall x | x in best1 && x !in layer1 ensures Settled(G, best1, x) {
      if x !in layer { assert Settled(G, best, x); }
    }
  }

  lemma NextAttained(G: Graph, best: map<Key, nat>, layer: map<Key, nat>, nxt: map<Key, nat>, best1: map<Key, nat>,
          layer1: map<Key, nat>, k: nat, x: Key)
    requires ExactChanges(G, best, Some(k)) && (forall y :: y in layer ==> y in best && best[y] == layer[y])
    requires NextOf(G, layer, layer.Keys, nxt) && Merged(best, nxt, nxt.Keys, best1, layer1) && x in best1
    ensures Attained(G, x, best1[x], Some(k + 1))
  {
    if x in layer1 {
      assert x in nxt && best1[x] == nxt[x];
      var x0: Key :| x0 in layer && Edge(G, x0.0, x.1, x.0) && nxt[x] == layer[x0] + Cost(x0.1, x.1);
      OneMoreStep(G, x0, best[x0], x, k);
    } else {
      assert Attained(G, x, best[x], Some(k)) && best1[x] == best[x];
      LaterAttained(G, x, best[x], k);
    }
  }

  lemma OneMoreStep(G: Graph, x0: Key, c: nat, x: Key, k: nat)
    requires Attained(G, x0, c, Some(k)) && Edge(G, x0.0, x.1, x.0)
    ensures Attained(G, x, c + Cost(x0.1, x.1), Some(k + 1))
  {
    var n: nat :| Within(n, Some(k)) && EndsAt(G, x0, n, c);
    EndsNext(G, x0, n, c, x.1, x.0);
    assert Within(n + 1, Some(k + 1));
  }

  lemma LaterAttained(G: Graph, x: Key, c: nat, k: nat)
    requires Attained(G, x, c, Some(k))
    ensures Attained(G, x, c, Some(k + 1))
  {
    var n: nat :| Within(n, Some(k)) && EndsAt(G, x, n, c);
    assert Within(n, Some(k + 1));
  }

  lemma NextComplete(G: Graph, best: map<Key, nat>, layer: map<Key, nat>, nxt: map<Key, nat>, best1: map<Key, nat>,
          k: nat, x: Key, n: nat, c: nat)
    requires ExactChanges(G, best, Some(k)) && k >= 1 && (forall y :: y in layer ==> y in best && best[y] == layer[y])
    requires forall y :: y in best && y !in layer ==> Settled(G, best, y)
    requires NextOf(G, layer, layer.Keys, nxt) && EndsAt(G, x, n, c) && n <= k + 1
    requires forall y :: y in best ==> y in best1 && best1[y] <= best[y]
    requires forall y :: y in nxt ==> y in best1 && best1[y] <= nxt[y]
    ensures x in best1 && best1[x] <= c
  {
    if n <= k {
      assert Within(n, Some(k));
    } else {
      var x0, c0 := EndsBack(G, x, n, c);
      assert Within(n - 1, Some(k));
      if x0 !in layer { assert Settled(G, best, x0); }
    }
  }

  /** The run one step shorter. */
  lemma EndsBack(G: Graph, x: Key, n: nat, c: nat) returns (x0: Key, c0: nat)
    requires EndsAt(G, x, n, c) && n > 1
    ensures EndsAt(G, x0, n - 1, c0) && Edge(G, x0.0, x.1, x.0) && c == c0 + Cost(x0.1, x.1)
  {
    var ss, ts :| IsRun(G, ss, ts) && |ts| == n > 0 && ss[n] == x.0 && ts[n - 1] == x.1 && Changes(ts) == c;
    RunLess(G, ss, ts);
    x0, c0 := (ss[n - 1], ts[n - 2]), Changes(ts[..n - 1]);
    assert ss[..n][n - 1] == x0.0 && ts[..n - 1][n - 2] == x0.1;
  }

  lemma InsideIs(G: Graph, inits: seq<State>, best: map<Key, nat>, inside: set<State>, K: nat, D: nat)
    requires G.inits == Elements(inits) && ExactChanges(G, best, Some(K))
    requires forall s :: s in inside <==> s in inits || exists k: Key :: k in best && k.0 == s && best[k] <= D
    ensures ExactInside(G, inside, K, D)
  {
    forall s | s in inside ensures exists n: nat, c: nat :: n <= K && c <= D && EndsIn(G, s, n, c) {
      if s in inits {
        EndsInit(G, s);
      } else {
        var k: Key :| k in best && k.0 == s && best[k] <= D;
        var n: nat :| Within(n, Some(K)) && EndsAt(G, k, n, best[k]);
        EndsAtIn(G, k, n, best[k]);
      }
    }
    forall s, n: nat, c: nat | n <= K && c <= D && EndsIn(G, s, n, c) ensures s in inside {
      var t := EndsInAt(G, s, n, c);
      if n > 0 { assert Within(n, Some(K)) && (s, t) in best; }
    }
  }

  ghost predicate LeastOver(sw: map<Key, nat>, D: set<Key>, least: map<State, nat>)
    requires D <= sw.Keys
  {
    && (forall s :: s in least ==> exists k: Key :: k in D && k.0 == s && sw[k] == least[s])
    && (forall k: Key :: k in D ==> k.0 in least && least[k.0] <= sw[k])
  }

  lemma OneOver(sw: map<Key, nat>, D: set<Key>, k: Key, least: map<State, nat>)
    requires D <= sw.Keys && k in sw && LeastOver(sw, D, least)
    ensures LeastOver(sw, D + {k}, if k.0 !in least || sw[k] < least[k.0] then least[k.0 := sw[k]] else least)
  {
    var l1 := if k.0 !in least || sw[k] < least[k.0] then least[k.0 := sw[k]] else least;
    forall s | s in l1 ensures exists x: Key :: x in D + {k} && x.0 == s && sw[x] == l1[s] {
      if s == k.0 && (k.0 !in least || sw[k] < least[k.0]) {
        assert k in D + {k};
      } else {
        var x: Key :| x in D && x.0 == s && sw[x] == least[s];
        assert x in D + {k};
      }
    }
  }

  lemma EndsInAt(G: Graph, s: State, n: nat, c: nat) returns (t: nat)
    requires EndsIn(G, s, n, c)
    ensures n == 0 ==> s in G.inits && c == 0
    ensures n > 0 ==> EndsAt(G, (s, t), n, c)
  {
    var ss, ts :| IsRun(G, ss, ts) && |ts| == n && ss[n] == s && Changes(ts) == c;
    t := if n > 0 then ts[n - 1] else 0;
  }

  lemma EndsAtIn(G: Graph, k: Key, n: nat, c: nat)
    requires EndsAt(G, k, n, c)
    ensures EndsIn(G, k.0, n, c)
  {}

  lemma EndsInit(G: Graph, s: State)
    requires s in G.inits
    ensures EndsIn(G, s, 0, 0)
  {
    assert IsRun(G, [s], []) && [s][0] == s;
  }

  lemma LeastSwitches(G: Graph, sw: map<Key, nat>, inits: seq<State>, over: map<State, nat>, least: map<State, nat>)
    requires G.inits == Elements(inits) && ExactChanges(G, sw, None) && LeastOver(sw, sw.Keys, over)
    requires forall s :: s in over || s in inits <==> s in least
    requires forall s :: s in least ==> least[s] == if s in inits then 0 else over[s]
    ensures ExactSwitches(G, least)
  {
    forall s | s in least ensures exists n :: EndsIn(G, s, n, least[s]) {
      if s in inits {
        EndsInit(G, s);
      } else {
        var k: Key :| k in sw && k.0 == s && sw[k] == over[s];
        var n: nat :| Within(n, None) && EndsAt(G, k, n, sw[k]);
        EndsAtIn(G, k, n, sw[k]);
      }
    }
    forall s, n, c | EndsIn(G, s, n, c) ensures s in least && least[s] <= c {
      var t := EndsInAt(G, s, n, c);
      if n > 0 && s !in inits { assert Within(n, None) && (s, t) in sw; }
    }
  }

  /** The costs within `k` steps; a key outside the layer is settled. */
  ghost predicate Layered(G: Graph, R: set<State>, best: map<Key, nat>, layer: map<Key, nat>, k: nat) {
    && ExactChanges(G, best, Some(k))
    && (forall x :: x in layer ==> x in best && best[x] == layer[x] && x.0 in R)
    && (forall x :: x in best && x !in layer ==> Settled(G, best, x))
  }

  lemma FirstLayer(G: Graph, inits: seq<State>, first: map<Key, nat>, order: seq<Key>, R: set<State>)
    requires SeededBy(G, inits, |inits|, first, order) && G.inits == Elements(inits) && ClosedUnder(G, R)
    ensures Layered(G, R, first, first, 1)
  {
    forall x | x in first ensures Attained(G, x, first[x], Some(1)) && x.0 in R {
      assert Within(1, Some(1)) && EndsAt(G, x, 1, 0);
      var ss, ts :| IsRun(G, ss, ts) && |ts| == 1 > 0 && ss[1] == x.0 && ts[0] == x.1 && Changes(ts) == 0;
      assert Edge(G, ss[0], ts[0], ss[1]);
    }
    forall x, n, c | EndsAt(G, x, n, c) && Within(n, Some(1)) ensures x in first && first[x] <= c {
      var ss, ts :| IsRun(G, ss, ts) && |ts| == n > 0 && ss[n] == x.0 && ts[n - 1] == x.1 && Changes(ts) == c;
      var j :| 0 <= j < |inits| && inits[j] == ss[0];
      assert Edge(G, inits[j], ts[0], ss[1]);
    }
  }

  /** A set of states that holds the initial ones and every successor. */
  ghost predicate ClosedUnder(G: Graph, R: set<State>) {
    G.inits <= R && forall s, t: nat, s1 :: s in R && Edge(G, s, t, s1) ==> s1 in R
  }

  ghost predicate SeededBy(G: Graph, inits: seq<State>, i: nat, first: map<Key, nat>, order: seq<Key>)
    requires i <= |inits|
  {
    && (forall k :: k in first ==> first[k] == 0 && EndsAt(G, k, 1, 0) && k in order)
    && (forall k :: k in order ==> k in first)
    && (forall j, t: nat, s1 :: 0 <= j < i && Edge(G, inits[j], t, s1) ==> (s1, t) in first)
  }

  /** The keys there can be. */
  ghost function Keys(R: set<State>, steps: seq<Step>): set<Key> {
    set s, t | s in R && t in Threads(steps) :: (s, t)
  }

  function Threads(steps: seq<Step>): set<nat> {
    set i | 0 <= i < |steps| :: steps[i].thread
  }

  /** Every move of a state is of a step's thread. */
  lemma {:induction false} MovesIn(m: Model, steps: seq<Step>, n: nat, s: State, moves: seq<(nat, State)>)
    requires n <= |steps| && Succ(m, steps[..n], s) == Some(moves)
    ensures forall j :: 0 <= j < |moves| ==> moves[j].0 in Threads(steps)
    decreases n
  {
    if n > 0 {
      assert steps[..n][..n - 1] == steps[..n - 1];
      MovesIn(m, steps, n - 1, s, Succ(m, steps[..n - 1], s).value);
      assert steps[n - 1].thread in Threads(steps);
    }
  }

  lemma KeysHave(m: Model, steps: seq<Step>, G: Graph, R: set<State>, K: set<Key>, s: State, moves: seq<(nat, State)>)
    requires G == GraphOf(m, steps, G.inits) && ClosedUnder(G, R) && s in R && Succ(m, steps, s) == Some(moves)
             && K == Keys(R, steps)
    ensures forall j :: 0 <= j < |moves| ==> (moves[j].1, moves[j].0) in K
  {
    assert steps[..|steps|] == steps;
    MovesIn(m, steps, |steps|, s, moves);
    forall j | 0 <= j < |moves| ensures (moves[j].1, moves[j].0) in K {
      assert (moves[j].0, moves[j].1) == moves[j];
      assert Edge(G, s, moves[j].0, moves[j].1);
    }
  }

  /** What the search for least changes keeps: costs attained, and every key waits or is settled. */
  ghost predicate Priced(G: Graph, R: set<State>, K: set<Key>, sw: map<Key, nat>, dq: seq<Key>) {
    Small(R, K, sw) && AllAttained(G, sw) && AllKnown(sw, dq) && Seeded(G, sw)
  }

  ghost predicate Small(R: set<State>, K: set<Key>, sw: map<Key, nat>) {
    sw.Keys <= K && forall k :: k in sw ==> k.0 in R && sw[k] < |sw|
  }

  ghost predicate AllAttained(G: Graph, sw: map<Key, nat>) {
    forall k :: k in sw ==> Attained(G, k, sw[k], None)
  }

  predicate AllKnown(sw: map<Key, nat>, dq: seq<Key>) {
    forall i :: 0 <= i < |dq| ==> dq[i] in sw
  }

  lemma Without(all: set<Key>, rest: set<Key>, k: Key)
    requires k in rest && rest <= all
    ensures all - (rest - {k}) == (all - rest) + {k} && |rest - {k}| < |rest|
  {
    assert rest == (rest - {k}) + {k};
  }

  ghost predicate Pending(G: Graph, R: set<State>, K: set<Key>, sw: map<Key, nat>, dq: seq<Key>) {
    Priced(G, R, K, sw, dq) && forall k :: k in sw ==> k in dq || Settled(G, sw, k)
  }

  ghost predicate Relaxing(G: Graph, R: set<State>, K: set<Key>, sw: map<Key, nat>, dq: seq<Key>, k: Key,
          moves: seq<(nat, State)>, i: nat) {
    && Priced(G, R, K, sw, dq) && k in sw && G.succ(k.0) == Some(moves) && i <= |moves|
    && Waiting(G, sw, dq, k) && Tried(sw, k, moves, i)
  }

  /** Every key but the one at hand is in the queue or settled. */
  ghost predicate Waiting(G: Graph, sw: map<Key, nat>, dq: seq<Key>, k: Key) {
    forall x :: x in sw ==> x == k || x in dq || Settled(G, sw, x)
  }

  /** The key's first `i` moves are priced. */
  ghost predicate Tried(sw: map<Key, nat>, k: Key, moves: seq<(nat, State)>, i: nat)
    requires k in sw && i <= |moves|
  {
    forall j :: 0 <= j < i ==> var k1 := (moves[j].1, moves[j].0); k1 in sw && sw[k1] <= sw[k] + Cost(k.1, k1.1)
  }

  /** What is left to improve: a search step takes something from it. */
  ghost function Slack(K: set<Key>, sw: map<Key, nat>): set<(Key, int)> {
    set k, v | k in K && 0 <= v <= |K| && (k !in sw || v < sw[k]) :: (k, v)
  }

  lemma CardLess(sw: map<Key, nat>, K: set<Key>)
    requires sw.Keys <= K
    ensures |sw| <= |K|
  {
    var rest := K - sw.Keys;
    assert K == sw.Keys + rest;
    assert |K| == |sw.Keys| + |rest|;
  }

  lemma FirstPending(m: Model, steps: seq<Step>, G: Graph, inits: seq<State>, R: set<State>, K: set<Key>,
          sw: map<Key, nat>, dq: seq<Key>)
    requires G == GraphOf(m, steps, Elements(inits)) && SeededBy(G, inits, |inits|, sw, dq)
    requires ClosedUnder(G, R) && K == Keys(R, steps) && forall s :: s in R ==> G.succ(s).Some?
    ensures Pending(G, R, K, sw, dq)
  {
    forall k | k in sw ensures k in K && sw[k] < |sw| && Attained(G, k, sw[k], None) {
      var ss, ts :| IsRun(G, ss, ts) && |ts| == 1 > 0 && ss[1] == k.0 && ts[0] == k.1 && Changes(ts) == 0;
      assert Edge(G, ss[0], ts[0], ss[1]);
      var moves := G.succ(ss[0]).value;
      KeysHave(m, steps, G, R, K, ss[0], moves);
      var j :| 0 <= j < |moves| && moves[j] == (ts[0], ss[1]);
      assert Within(1, None) && EndsAt(G, k, 1, 0);
      assert k in sw.Keys;
    }
    forall s, t: nat, s1 | s in G.inits && Edge(G, s, t, s1) ensures (s1, t) in sw && sw[(s1, t)] == 0 {
      var j :| 0 <= j < |inits| && inits[j] == s;
      assert Edge(G, inits[j], t, s1);
    }
  }

  lemma PopPending(G: Graph, R: set<State>, K: set<Key>, sw: map<Key, nat>, dq: seq<Key>)
    requires Pending(G, R, K, sw, dq) && dq != [] && G.succ(dq[0].0).Some?
    ensures Relaxing(G, R, K, sw, dq[1..], dq[0], G.succ(dq[0].0).value, 0)
  {}

  lemma AttainedNext(G: Graph, k: Key, c: nat, k1: Key)
    requires Attained(G, k, c, None) && Edge(G, k.0, k1.1, k1.0)
    ensures Attained(G, k1, c + Cost(k.1, k1.1), None)
  {
    var n: nat :| Within(n, None) && EndsAt(G, k, n, c);
    EndsNext(G, k, n, c, k1.1, k1.0);
    assert Within(n + 1, None);
  }

  lemma SettledStill(G: Graph, sw: map<Key, nat>, k1: Key, nc: nat, x: Key)
    requires x in sw && x != k1 && Settled(G, sw, x) && (k1 in sw ==> nc <= sw[k1])
    ensures Settled(G, sw[k1 := nc], x)
  {}

  lemma SmallNext(R: set<State>, K: set<Key>, sw: map<Key, nat>, k1: Key, nc: nat)
    requires Small(R, K, sw) && k1 in K && k1.0 in R && nc <= |sw| && (k1 !in sw || nc < sw[k1])
    ensures Small(R, K, sw[k1 := nc])
  {
    var w := sw[k1 := nc];
    if k1 !in sw { assert w.Keys == sw.Keys + {k1} && |w| == |sw| + 1; }
    else { assert w.Keys == sw.Keys && |w| == |sw|; }
  }

  lemma SeededStill(G: Graph, sw: map<Key, nat>, k1: Key, nc: nat)
    requires Seeded(G, sw) && (k1 !in sw || nc < sw[k1])
    ensures Seeded(G, sw[k1 := nc])
  {}

  lemma PricedNext(G: Graph, R: set<State>, K: set<Key>, sw: map<Key, nat>, dq: seq<Key>, k1: Key, nc: nat, q: seq<Key>)
    requires Priced(G, R, K, sw, dq) && k1 in K && k1.0 in R && Attained(G, k1, nc, None) && nc <= |sw|
    requires (k1 !in sw || nc < sw[k1]) && (q == [k1] + dq || q == dq + [k1])
    ensures Priced(G, R, K, sw[k1 := nc], q)
  {
    SmallNext(R, K, sw, k1, nc);
    SeededStill(G, sw, k1, nc);
    AttainedStill(G, sw, k1, nc);
    QueueKnown(sw, dq, k1, nc, q);
  }

  lemma AttainedStill(G: Graph, sw: map<Key, nat>, k1: Key, nc: nat)
    requires AllAttained(G, sw) && Attained(G, k1, nc, None)
    ensures AllAttained(G, sw[k1 := nc])
  {}

  lemma QueueKnown(sw: map<Key, nat>, dq: seq<Key>, k1: Key, nc: nat, q: seq<Key>)
    requires AllKnown(sw, dq) && (q == [k1] + dq || q == dq + [k1])
    ensures AllKnown(sw[k1 := nc], q)
  {}

  lemma Queued(dq: seq<Key>, k1: Key, q: seq<Key>, x: Key)
    requires (q == [k1] + dq || q == dq + [k1]) && (x in dq || x == k1)
    ensures x in q
  {
    if x in dq {
      var j :| 0 <= j < |dq| && dq[j] == x;
      assert ([k1] + dq)[j + 1] == x && (dq + [k1])[j] == x;
    } else {
      assert ([k1] + dq)[0] == k1 && (dq + [k1])[|dq|] == k1;
    }
  }

  /** A cheaper way into a key. */
  lemma Improve(G: Graph, R: set<State>, K: set<Key>, sw: map<Key, nat>, dq: seq<Key>, k: Key,
          moves: seq<(nat, State)>, i: nat, k1: Key, nc: nat, q: seq<Key>)
    requires Relaxing(G, R, K, sw, dq, k, moves, i) && i < |moves| && k1 == (moves[i].1, moves[i].0) && k1 in K
             && ClosedUnder(G, R)
    requires nc == sw[k] + Cost(k.1, k1.1) && (k1 !in sw || nc < sw[k1]) && (q == [k1] + dq || q == dq + [k1])
    ensures k1 != k && nc <= |sw| && Relaxing(G, R, K, sw[k1 := nc], q, k, moves, i + 1)
  {
    CheaperAttained(G, R, K, sw, dq, k, moves, i, k1);
    PricedNext(G, R, K, sw, dq, k1, nc, q);
    WaitingStill(G, sw, dq, k, k1, nc, q);
    TriedNext(sw, k, moves, i, k1, nc);
  }

  lemma CheaperAttained(G: Graph, R: set<State>, K: set<Key>, sw: map<Key, nat>, dq: seq<Key>, k: Key,
          moves: seq<(nat, State)>, i: nat, k1: Key)
    requires Priced(G, R, K, sw, dq) && k in sw && G.succ(k.0) == Some(moves) && i < |moves|
             && k1 == (moves[i].1, moves[i].0)
    requires ClosedUnder(G, R)
    ensures Attained(G, k1, sw[k] + Cost(k.1, k1.1), None) && k1.0 in R && sw[k] < |sw|
  {
    assert moves[i] == (k1.1, k1.0) && Edge(G, k.0, k1.1, k1.0);
    AttainedNext(G, k, sw[k], k1);
  }

  lemma TriedNext(sw: map<Key, nat>, k: Key, moves: seq<(nat, State)>, i: nat, k1: Key, nc: nat)
    requires k in sw && i < |moves| && Tried(sw, k, moves, i) && k1 == (moves[i].1, moves[i].0)
    requires nc == sw[k] + Cost(k.1, k1.1) && (k1 !in sw || nc < sw[k1]) && k1 != k
    ensures Tried(sw[k1 := nc], k, moves, i + 1)
  {}

  lemma WaitingStill(G: Graph, sw: map<Key, nat>, dq: seq<Key>, k: Key, k1: Key, nc: nat, q: seq<Key>)
    requires Waiting(G, sw, dq, k) && (k1 in sw ==> nc <= sw[k1])
    requires q == [k1] + dq || q == dq + [k1]
    ensures Waiting(G, sw[k1 := nc], q, k)
  {
    var w := sw[k1 := nc];
    forall x | x in w ensures x == k || x in q || Settled(G, w, x) {
      if x in dq || x == k1 { Queued(dq, k1, q, x); } else if x != k { SettledStill(G, sw, k1, nc, x); }
    }
  }

  lemma NoImprovement(G: Graph, R: set<State>, K: set<Key>, sw: map<Key, nat>, dq: seq<Key>, k: Key,
          moves: seq<(nat, State)>, i: nat)
    requires Relaxing(G, R, K, sw, dq, k, moves, i) && i < |moves|
    requires var k1 := (moves[i].1, moves[i].0); k1 in sw && sw[k1] <= sw[k] + Cost(k.1, moves[i].0)
    ensures Relaxing(G, R, K, sw, dq, k, moves, i + 1)
  {}

  lemma LessSlack(K: set<Key>, sw: map<Key, nat>, k: Key, nc: nat)
    requires k in K && (k !in sw || nc < sw[k]) && nc <= |K|
    ensures Slack(K, sw[k := nc]) < Slack(K, sw)
  {
    assert (k, nc) in Slack(K, sw) && (k, nc) !in Slack(K, sw[k := nc]);
  }

  lemma Relaxed(G: Graph, R: set<State>, K: set<Key>, sw: map<Key, nat>, dq: seq<Key>, k: Key, moves: seq<(nat, State)>)
    requires Relaxing(G, R, K, sw, dq, k, moves, |moves|)
    ensures Pending(G, R, K, sw, dq)
  {
    forall t: nat, s1 | Edge(G, k.0, t, s1) ensures (s1, t) in sw && sw[(s1, t)] <= sw[k] + Cost(k.1, t) {
      var j :| 0 <= j < |moves| && moves[j] == (t, s1);
      assert (moves[j].1, moves[j].0) == (s1, t);
    }
  }

  lemma LeastChanges(G: Graph, R: set<State>, K: set<Key>, sw: map<Key, nat>)
    requires Pending(G, R, K, sw, [])
    ensures ExactChanges(G, sw, None)
  {
    forall k, n, c | EndsAt(G, k, n, c) && Within(n, None) ensures k in sw && sw[k] <= c {
      ChangesBound(G, sw, k, n, c);
    }
  }

  lemma OneMore(C1: set<State>, C: set<State>, s: State, O: set<State>, D: set<State>, D1: set<State>)
    requires C1 == C + {s} && C <= O + D && s in D && D <= D1
    ensures C1 <= O + D1
  {}

  lemma StuckAt(G: Graph, dist: map<State, nat>, s: State)
    requires Grounded(G, dist) && s in dist && G.succ(s).None?
    ensures Stuck(G)
  {
    assert Reaches(G, s, dist[s]);
  }

  lemma FrontierMore(G: Graph, dist: map<State, nat>, q: seq<State>, C: set<State>, C1: set<State>)
    requires Frontier(G, dist, q, C) && C <= C1
    ensures Frontier(G, dist, q, C1)
  {}

  lemma Deepest(G: Graph, dist: map<State, nat>, C: set<State>)
    requires Frontier(G, dist, [], C)
    ensures ExactDepths(G, dist) && dist.Keys <= C
  {
    forall s, n | Reaches(G, s, n) ensures s in dist && dist[s] <= n { DepthBound(G, dist, s, n); }
  }

  function Elements(inits: seq<State>): set<State> {
    set s | s in inits
  }

  /** More states are reachable than the search may hold. */
  ghost predicate TooMany(G: Graph) {
    exists S: set<State> :: |S| > 200000 && forall s :: s in S ==> Reachable(G, s)
  }

  /** A step cannot be computed in some reachable state. */
  ghost predicate Stuck(G: Graph) {
    exists s :: Reachable(G, s) && G.succ(s).None?
  }

  /** The depths so far: sound, in queue order, and spread from every state that has left the queue. */
  ghost predicate Frontier(G: Graph, dist: map<State, nat>, q: seq<State>, C: set<State>) {
    && Grounded(G, dist)
    && (forall i :: 0 <= i < |q| ==> q[i] in dist)
    && (forall i, j :: 0 <= i < j < |q| ==> dist[q[i]] <= dist[q[j]])
    && (q != [] ==> forall s :: s in dist ==> dist[s] <= dist[q[0]] + 1)
    && (forall s :: s in dist ==> s in q || (s in C && Spreads(G, dist, s)))
  }

  ghost predicate Grounded(G: Graph, dist: map<State, nat>) {
    && (forall s :: s in dist ==> Reaches(G, s, dist[s]))
    && (forall s :: s in G.inits ==> s in dist && dist[s] == 0)
  }

  /** The same while `s` is expanded: its first `i` moves are done. */
  ghost predicate Expanding(G: Graph, dist: map<State, nat>, q: seq<State>, s: State, moves: seq<(nat, State)>, i: nat,
          C: set<State>) {
    && Grounded(G, dist) && s in dist && s in C && G.succ(s) == Some(moves) && i <= |moves|
    && (forall j :: 0 <= j < |q| ==> q[j] in dist && dist[s] <= dist[q[j]])
    && (forall j, k :: 0 <= j < k < |q| ==> dist[q[j]] <= dist[q[k]])
    && (forall x :: x in dist ==> dist[x] <= dist[s] + 1)
    && (forall x :: x in dist ==> x == s || x in q || (x in C && Spreads(G, dist, x)))
    && (forall j :: 0 <= j < i ==> moves[j].1 in dist)
  }

  lemma FirstFrontier(G: Graph, inits: seq<State>, dist: map<State, nat>, C: set<State>)
    requires G.inits == Elements(inits) && dist == map s | s in inits :: 0
    ensures Frontier(G, dist, inits, C) && |dist| <= |inits|
  {
    forall s | s in dist ensures Reaches(G, s, dist[s]) { ReachesInit(G, s); }
    DistinctAtMost(inits);
    assert dist.Keys == Elements(inits);
  }

  lemma {:induction false} DistinctAtMost(inits: seq<State>)
    ensures |Elements(inits)| <= |inits|
  {
    if inits != [] {
      DistinctAtMost(inits[1..]);
      assert Elements(inits) == {inits[0]} + Elements(inits[1..]);
    }
  }

  lemma PopFront(G: Graph, dist: map<State, nat>, q: seq<State>, C: set<State>)
    requires Frontier(G, dist, q, C) && q != [] && q[0] in C && G.succ(q[0]).Some?
    ensures Expanding(G, dist, q[1..], q[0], G.succ(q[0]).value, 0, C)
  {}

  lemma KnownState(G: Graph, dist: map<State, nat>, q: seq<State>, s: State, moves: seq<(nat, State)>, i: nat,
          C: set<State>)
    requires Expanding(G, dist, q, s, moves, i, C) && i < |moves| && moves[i].1 in dist
    ensures Expanding(G, dist, q, s, moves, i + 1, C)
  {}

  lemma NewState(G: Graph, dist: map<State, nat>, q: seq<State>, s: State, moves: seq<(nat, State)>, i: nat,
          C: set<State>)
    requires Expanding(G, dist, q, s, moves, i, C) && i < |moves| && moves[i].1 !in dist
    ensures Expanding(G, dist[moves[i].1 := dist[s] + 1], q + [moves[i].1], s, moves, i + 1, C)
  {
    var ns := moves[i].1;
    var d1, q1 := dist[ns := dist[s] + 1], q + [ns];
    assert Edge(G, s, moves[i].0, ns);
    ReachesNext(G, s, dist[s], moves[i].0, ns);
    forall x | x in d1 ensures x == s || x in q1 || (x in C && Spreads(G, d1, x)) {
      if x != ns && x != s && x !in q { assert Spreads(G, dist, x); }
    }
  }

  lemma Expanded(G: Graph, dist: map<State, nat>, q: seq<State>, s: State, moves: seq<(nat, State)>, C: set<State>)
    requires Expanding(G, dist, q, s, moves, |moves|, C)
    ensures Frontier(G, dist, q, C)
  {
    forall t: nat, s1 | Edge(G, s, t, s1) ensures s1 in dist && dist[s1] <= dist[s] + 1 {
      var j :| 0 <= j < |moves| && moves[j] == (t, s1);
      assert moves[j].1 in dist;
    }
  }

  lemma Crowd(G: Graph, dist: map<State, nat>, q: seq<State>, s: State, moves: seq<(nat, State)>, i: nat, C: set<State>)
    requires Expanding(G, dist, q, s, moves, i, C) && |dist| > STATE_CAP
    ensures TooMany(G)
  {
    var S := dist.Keys;
    assert |S| > STATE_CAP;
    forall x | x in S ensures Reachable(G, x) { assert Reaches(G, x, dist[x]); }
  }

  /** While a state is expanded: its first `i` steps are counted, and all those of the states before. */
  ghost predicate Growing(m: Model, steps: seq<Step>, S: set<State>, s: State, i: nat, blocked: map<StepKey, nat>)
    requires i <= |steps|
  {
    && (forall key :: key in blocked ==> LeavesFrom(m, steps, key, S + {s}, blocked[key]))
    && (forall key, s0, v :: s0 in S && LeavesAt(m, steps, key, s0, v) ==> Least(blocked, key, v))
    && (forall j :: 0 <= j < i ==> Recorded(m, steps[j], s, blocked))
  }

  predicate Recorded(m: Model, st: Step, s: State, blocked: map<StepKey, nat>) {
    Fire(m, st, s).Leaves? ==> Least(blocked, (st.thread, st.name), Fire(m, st, s).v)
  }

  lemma NoneFired(m: Model, steps: seq<Step>, S: set<State>, s: State, blocked: map<StepKey, nat>)
    requires ExactBlocked(m, steps, S, blocked)
    ensures Growing(m, steps, S, s, 0, blocked)
  {
    forall key | key in blocked ensures LeavesFrom(m, steps, key, S + {s}, blocked[key]) {
      var s0 :| s0 in S && LeavesAt(m, steps, key, s0, blocked[key]);
      assert s0 in S + {s};
    }
  }

  lemma OneFired(m: Model, steps: seq<Step>, S: set<State>, s: State, i: nat, blocked: map<StepKey, nat>)
    requires i < |steps| && Growing(m, steps, S, s, i, blocked)
    ensures var x, key := Fire(m, steps[i], s), (steps[i].thread, steps[i].name);
            Growing(m, steps, S, s, i + 1, if x.Leaves? && (key !in blocked || x.v < blocked[key])
                then blocked[key := x.v] else blocked)
  {
    var x, key := Fire(m, steps[i], s), (steps[i].thread, steps[i].name);
    if x.Leaves? && (key !in blocked || x.v < blocked[key]) {
      assert KeyOf(steps[i], key);
      assert LeavesAt(m, steps, key, s, x.v) && s in S + {s};
      GrowOne(m, steps, S, s, i, blocked, key, x.v);
    }
  }

  lemma GrowOne(m: Model, steps: seq<Step>, S: set<State>, s: State, i: nat, blocked: map<StepKey, nat>, key: StepKey,
          v: nat)
    requires i < |steps| && Growing(m, steps, S, s, i, blocked) && LeavesFrom(m, steps, key, S + {s}, v)
    requires (key !in blocked || v < blocked[key]) && Recorded(m, steps[i], s, blocked[key := v])
    ensures Growing(m, steps, S, s, i + 1, blocked[key := v])
  {
    var b := blocked[key := v];
    forall k, w | Least(blocked, k, w) ensures Least(b, k, w) {}
    forall j | 0 <= j < i ensures Recorded(m, steps[j], s, b) {
      assert Recorded(m, steps[j], s, blocked);
    }
  }

  lemma AllFired(m: Model, steps: seq<Step>, S: set<State>, s: State, blocked: map<StepKey, nat>)
    requires Growing(m, steps, S, s, |steps|, blocked)
    ensures ExactBlocked(m, steps, S + {s}, blocked)
  {
    forall key, s0, v | s0 in S + {s} && LeavesAt(m, steps, key, s0, v) ensures Least(blocked, key, v) {
      if s0 !in S {
        var i :| 0 <= i < |steps| && KeyOf(steps[i], key) && Fire(m, steps[i], s).Leaves?
            && Fire(m, steps[i], s).v == v;
        assert Recorded(m, steps[i], s, blocked);
      }
    }
  }

  lemma {:induction false} ProblemStays(m: Model, steps: seq<Step>, i: nat, s: State)
    requires i <= |steps| && Succ(m, steps[..i], s).None?
    ensures Succ(m, steps, s).None?
    decreases |steps| - i
  {
    if i == |steps| {
      assert steps[..i] == steps;
    } else {
      assert steps[..i + 1][..i] == steps[..i];
      ProblemStays(m, steps, i + 1, s);
    }
  }
}
