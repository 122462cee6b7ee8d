/** The suspension check: which stack slots a resumed activation can read before anything in that activation has
    written them. */
module StaleReads {
  import opened Words

  datatype Kind = Read | Handed | Write(store: bool)

  /** An access to a slot: a load, a call handed the slot, or a write, by a store or by a call that fills it. */
  datatype Event = Event(kind: Kind, slot: string)

  /** A resume body block by block. A label without an entry has no events and no successors. */
  datatype Body = Body(succ: map<string, seq<string>>, acc: map<string, seq<Event>>)

  datatype Hit = Hit(slot: string, kind: Kind, block: string)

  const ENTRY := "entry"

  /** Where an activation that is not the first one starts. */
  predicate Resumes(t: string) {
    t != "seg0" && t != "coro.bad"
  }

  function Next(g: Body, b: string): seq<string> {
    if b in g.succ then g.succ[b] else []
  }

  function Events(g: Body, b: string): seq<Event> {
    if b in g.acc then g.acc[b] else []
  }

  ghost predicate Goes(g: Body, b: string, c: string) {
    b in g.succ && c in g.succ[b]
  }

  /** Every block the entry goes to but the first segment and the trap for a bad state. */
  ghost predicate Root(g: Body, b: string) {
    Goes(g, "entry", b) && b != "seg0" && b != "coro.bad"
  }

  /** A way through the blocks from a resume root. */
  ghost predicate Run(g: Body, p: seq<string>) {
    && 0 < |p| && Root(g, p[0])
    && forall k :: 0 <= k < |p| - 1 ==> Goes(g, p[k], p[k + 1])
  }

  ghost function Trace(g: Body, p: seq<string>): seq<Event> {
    if p == [] then [] else (if p[0] in g.acc then g.acc[p[0]] else []) + Trace(g, p[1..])
  }

  predicate Writes(e: Event, a: string) {
    e.kind.Write? && e.slot == a
  }

  /** Some read of the slot comes before every write of it. */
  ghost predicate ReadFirst(t: seq<Event>, a: string) {
    exists i :: 0 <= i < |t| && t[i].slot == a && !t[i].kind.Write? &&
      forall j :: 0 <= j < i ==> !Writes(t[j], a)
  }

  /** Some run from a resume root reads the slot before writing it. */
  ghost predicate Stale(g: Body, a: string) {
    exists p :: Run(g, p) && ReadFirst(Trace(g, p), a)
  }

  ghost predicate Silent(g: Body, b: string, a: string) {
    forall e :: e in Events(g, b) ==> e.slot != a
  }

  /** The first access to the slot in the block, if it has one. */
  method FirstEvent(g: Body, b: string, a: string) returns (k: Option<Kind>)
    ensures k.None? <==> Silent(g, b, a)
    ensures k.Some? ==> FirstIs(Events(g, b), a, k.value)
    ensures k.Some? && !k.value.Write? ==> ReadFirst(Events(g, b), a)
    ensures k.Some? && k.value.Write? ==> WrittenFirst(Events(g, b), a)
  {
    var ev := Events(g, b);
    for i := 0 to |ev|
      invariant forall j :: 0 <= j < i ==> ev[j].slot != a
    {
      if ev[i].slot == a {
        return Some(ev[i].kind);
      }
    }
    return None;
  }

  /** The first access to the slot is of that kind. */
  ghost predicate FirstIs(t: seq<Event>, a: string, kind: Kind) {
    exists i :: 0 <= i < |t| && t[i] == Event(kind, a) && forall j :: 0 <= j < i ==> t[j].slot != a
  }

  ghost predicate WrittenFirst(t: seq<Event>, a: string) {
    exists i :: 0 <= i < |t| && Writes(t[i], a) && forall j :: 0 <= j < i ==> t[j].slot != a
  }

  // ------------------------------------------------------ traces of runs

  lemma ReadFirstOver(s: seq<Event>, t: seq<Event>, a: string)
    requires forall e :: e in s ==> e.slot != a
    ensures ReadFirst(s + t, a) <==> ReadFirst(t, a)
  {
    if ReadFirst(t, a) {
      var i :| 0 <= i < |t| && t[i].slot == a && !t[i].kind.Write?
               && forall j :: 0 <= j < i ==> !Writes(t[j], a);
      assert (s + t)[|s| + i] == t[i];
      forall j | 0 <= j < |s| + i
        ensures !Writes((s + t)[j], a)
      {
        if j < |s| { assert s[j] in s; }
      }
    }
    forall j | 0 <= j < |s|
      ensures (s + t)[j].slot != a
    {
      assert s[j] in s;
    }
    if ReadFirst(s + t, a) {
      var i :| 0 <= i < |s + t| && (s + t)[i].slot == a && !(s + t)[i].kind.Write? &&
        forall j :: 0 <= j < i ==> !Writes((s + t)[j], a);
      forall j | 0 <= j < i - |s|
        ensures !Writes(t[j], a)
      {
        assert (s + t)[|s| + j] == t[j];
      }
    }
  }

  lemma WriteShields(s: seq<Event>, t: seq<Event>, a: string)
    requires WrittenFirst(s, a)
    ensures !ReadFirst(s + t, a)
  {
    var i :| 0 <= i < |s| && Writes(s[i], a) && forall j :: 0 <= j < i ==> s[j].slot != a;
    assert (s + t)[i] == s[i];
    assert forall j :: 0 <= j < i ==> (s + t)[j] == s[j];
  }

  /** Blocks that leave the slot alone do not matter to the trace. */
  lemma {:induction false} SilentPrefix(g: Body, p: seq<string>, a: string)
    requires 0 < |p| && forall k :: 0 <= k < |p| - 1 ==> Silent(g, p[k], a)
    ensures ReadFirst(Trace(g, p), a) <==> ReadFirst(Events(g, p[|p| - 1]), a)
  {
    if |p| > 1 {
      ReadFirstOver(Events(g, p[0]), Trace(g, p[1..]), a);
      SilentPrefix(g, p[1..], a);
    } else {
      assert Trace(g, p) == Events(g, p[0]) + [];
      assert Events(g, p[0]) + [] == Events(g, p[0]);
    }
  }

  /** A run along which nothing before the last block touches the slot. */
  ghost predicate QuietRun(g: Body, p: seq<string>, b: string, a: string) {
    Run(g, p) && p[|p| - 1] == b && forall k :: 0 <= k < |p| - 1 ==> Silent(g, p[k], a)
  }

  ghost predicate Reached(g: Body, b: string, a: string) {
    exists p :: QuietRun(g, p, b, a)
  }

  lemma ReachedNext(g: Body, b: string, n: string, a: string)
    requires Reached(g, b, a) && Silent(g, b, a) && n in Next(g, b)
    ensures Reached(g, n, a)
  {
    var p :| QuietRun(g, p, b, a);
    assert QuietRun(g, p + [n], n, a);
  }

  lemma ReachedRoot(g: Body, b: string, a: string)
    requires Root(g, b)
    ensures Reached(g, b, a)
  {
    assert QuietRun(g, [b], b, a);
  }

  /** What the finished worklist has seen to: the roots, and the successors of every block that leaves the slot
      alone; no block reads it first. */
  ghost predicate Closed(g: Body, seen: set<string>, a: string) {
    && (forall b :: Root(g, b) ==> b in seen)
    && forall b :: b in seen ==> Done(g, seen, b, a)
  }

  ghost predicate Done(g: Body, seen: set<string>, b: string, a: string) {
    WrittenFirst(Events(g, b), a) || (Silent(g, b, a) && forall n :: n in Next(g, b) ==> n in seen)
  }

  lemma {:induction false} ClosedShields(g: Body, seen: set<string>, a: string, p: seq<string>)
    requires 0 < |p| && p[0] in seen && forall b :: b in seen ==> Done(g, seen, b, a)
    requires forall k :: 0 <= k < |p| - 1 ==> Goes(g, p[k], p[k + 1])
    ensures !ReadFirst(Trace(g, p), a)
  {
    if WrittenFirst(Events(g, p[0]), a) {
      WriteShields(Events(g, p[0]), Trace(g, p[1..]), a);
    } else {
      ReadFirstOver(Events(g, p[0]), Trace(g, p[1..]), a);
      if |p| > 1 {
        assert Goes(g, p[0], p[0 + 1]);
        forall k | 0 <= k < |p[1..]| - 1
          ensures Goes(g, p[1..][k], p[1..][k + 1])
        {
          assert Goes(g, p[k + 1], p[k + 1 + 1]);
        }
        ClosedShields(g, seen, a, p[1..]);
      }
    }
  }

  // -------------------------------------------------------- the worklist

  function Targets(g: Body): set<string> {
    set b, t | b in g.succ && t in g.succ[b] :: t
  }

  method Roots(g: Body) returns (roots: seq<string>)
    ensures forall b :: b in roots <==> Root(g, b)
    ensures forall b :: b in roots ==> b in Targets(g)
  {
    roots := [];
    var all := Next(g, ENTRY);
    for k := 0 to |all|
      invariant forall b :: b in roots <==> b in all[..k] && Resumes(b)
    {
      assert all[..k + 1] == all[..k] + [all[k]];
      if Resumes(all[k]) {
        roots := roots + [all[k]];
      }
    }
    assert all[..|all|] == all;
  }

  /** Successors met for the first time are noted and put on the worklist. */
  method Expand(ns: seq<string>, seen0: set<string>, work0: seq<string>) returns (seen: set<string>, work: seq<string>)
    ensures forall c :: c in seen <==> c in seen0 || c in ns
    ensures forall c :: c in work <==> c in work0 || (c in ns && c !in seen0)
    ensures seen0 <= seen && (seen == seen0 ==> work == work0)
  {
    seen, work := seen0, work0;
    for k := 0 to |ns|
      invariant forall c :: c in seen <==> c in seen0 || c in ns[..k]
      invariant forall c :: c in work <==> c in work0 || (c in ns[..k] && c !in seen0)
      invariant seen0 <= seen && (seen == seen0 ==> work == work0)
    {
      assert ns[..k + 1] == ns[..k] + [ns[k]];
      if ns[k] !in seen {
        seen := seen + {ns[k]};
        work := work + [ns[k]];
      }
    }
    assert ns[..|ns|] == ns;
  }

  /** The worklist's invariant: what is seen is reached, and all of it but the work left is done. */
  ghost predicate Frontier(g: Body, seen: set<string>, work: seq<string>, a: string) {
    && (forall b :: b in work ==> b in seen)
    && (forall b :: b in seen ==> b in Targets(g) && Reached(g, b, a))
    && (forall b :: Root(g, b) ==> b in seen)
    && forall b :: b in seen && b !in work ==> Done(g, seen, b, a)
  }

  lemma FrontierStart(g: Body, roots: seq<string>, seen: set<string>, a: string)
    requires (forall b :: b in roots <==> Root(g, b)) && (forall b :: b in roots ==> b in Targets(g))
             && forall b :: b in seen <==> b in roots
    ensures Frontier(g, seen, roots, a)
  {
    forall b | b in roots
      ensures Reached(g, b, a)
    {
      ReachedRoot(g, b, a);
    }
  }

  lemma Popped(work: seq<string>)
    requires work != []
    ensures forall c :: c in work <==> c in work[..|work| - 1] || c == work[|work| - 1]
  {
    assert work == work[..|work| - 1] + [work[|work| - 1]];
  }

  lemma Shielded(g: Body, seen: set<string>, work: seq<string>, a: string)
    requires Frontier(g, seen, work, a) && work != [] && WrittenFirst(Events(g, work[|work| - 1]), a)
    ensures Frontier(g, seen, work[..|work| - 1], a)
  {
    Popped(work);
  }

  lemma Expanded(g: Body, seen0: set<string>, work0: seq<string>, a: string, seen: set<string>, work: seq<string>)
    requires Frontier(g, seen0, work0, a) && work0 != [] && Silent(g, work0[|work0| - 1], a)
    requires var ns, left := Next(g, work0[|work0| - 1]), work0[..|work0| - 1];
             && (forall c :: c in seen <==> c in seen0 || c in ns)
             && (forall c :: c in work <==> c in left || (c in ns && c !in seen0))
    ensures Frontier(g, seen, work, a)
  {
    var b := work0[|work0| - 1];
    Popped(work0);
    forall n | n in Next(g, b)
      ensures Reached(g, n, a) && n in Targets(g)
    {
      ReachedNext(g, b, n, a);
    }
    forall c | c in seen && c !in work
      ensures Done(g, seen, c, a)
    {
      assert c == b || Done(g, seen0, c, a);
    }
  }

  lemma FewerLeft(all: set<string>, seen0: set<string>, seen: set<string>)
    requires seen0 <= seen <= all
    ensures seen == seen0 || all - seen < all - seen0
  {
    if seen != seen0 {
      var b :| b in seen && b !in seen0;
      assert b in all - seen0 && b !in all - seen;
    }
  }

  /** The worklist is a stack: the block added last is looked at first, and a root named twice is looked at
      twice. */
  method Search(g: Body, roots: seq<string>, a: string) returns (hit: Option<Hit>)
    requires forall b :: b in roots <==> Root(g, b)
    requires forall b :: b in roots ==> b in Targets(g)
    ensures hit.Some? <==> Stale(g, a)
    ensures hit.Some? ==> RightHit(g, hit.value, a)
  {
    var seen := set b | b in roots;
    var work := roots;
    FrontierStart(g, roots, seen, a);
    while work != []
      invariant Frontier(g, seen, work, a)
      decreases Targets(g) - seen, |work|
    {
      var b := work[|work| - 1];
      var first := FirstEvent(g, b, a);
      if first.Some? && !first.value.Write? {
        HitIsStale(g, b, a);
        return Some(Hit(a, first.value, b));
      }
      if first.None? {
        var seen1, work1 := Expand(Next(g, b), seen, work[..|work| - 1]);
        Expanded(g, seen, work, a, seen1, work1);
        FewerLeft(Targets(g), seen, seen1);
        seen, work := seen1, work1;
      } else {
        Shielded(g, seen, work, a);
        work := work[..|work| - 1];
      }
    }
    NothingStale(g, seen, a);
    return None;
  }

  lemma NothingStale(g: Body, seen: set<string>, a: string)
    requires Frontier(g, seen, [], a)
    ensures !Stale(g, a)
  {
    forall p | Run(g, p)
      ensures !ReadFirst(Trace(g, p), a)
    {
      ClosedShields(g, seen, a, p);
    }
  }

  ghost predicate RightHit(g: Body, h: Hit, a: string) {
    h.slot == a && !h.kind.Write? && Reached(g, h.block, a) && FirstIs(Events(g, h.block), a, h.kind)
  }

  lemma HitIsStale(g: Body, b: string, a: string)
    requires Reached(g, b, a) && ReadFirst(Events(g, b), a)
    ensures Stale(g, a)
  {
    var p :| QuietRun(g, p, b, a);
    SilentPrefix(g, p, a);
  }

  /** The hits on the slots asked about so far. */
  ghost predicate Listed(g: Body, asked: set<string>, out: seq<Hit>) {
    && (forall k :: 0 <= k < |out| ==> Listable(g, asked, out[k]))
    && (forall a :: a in asked && Stale(g, a) ==> Has(out, a))
    && forall j, k :: 0 <= j < k < |out| ==> out[j].slot != out[k].slot
  }

  ghost predicate Listable(g: Body, asked: set<string>, h: Hit) {
    h.slot in asked && Stale(g, h.slot) && RightHit(g, h, h.slot)
  }

  predicate Has(out: seq<Hit>, a: string) {
    exists k :: 0 <= k < |out| && out[k].slot == a
  }

  lemma HasMore(out: seq<Hit>, h: Hit, a: string)
    ensures Has(out + [h], a) <==> Has(out, a) || h.slot == a
  {
    assert (out + [h])[|out|] == h;
    if k :| 0 <= k < |out| && out[k].slot == a {
      assert (out + [h])[k].slot == a;
    }
  }

  lemma ListedNext(g: Body, asked: set<string>, out: seq<Hit>, a: string, hit: Option<Hit>)
    requires Listed(g, asked, out) && a !in asked && (hit.Some? <==> Stale(g, a))
             && (hit.Some? ==> RightHit(g, hit.value, a))
    ensures Listed(g, asked + {a}, if hit.Some? then out + [hit.value] else out)
  {
    forall k | 0 <= k < |out|
      ensures Listable(g, asked + {a}, out[k])
    {
      assert Listable(g, asked, out[k]);
    }
    if hit.Some? { ListedHit(g, asked, out, a, hit.value); }
  }

  lemma ListedHit(g: Body, asked: set<string>, out: seq<Hit>, a: string, h: Hit)
    requires Listed(g, asked, out) && a !in asked && Stale(g, a) && RightHit(g, h, a)
    ensures Listed(g, asked + {a}, out + [h])
  {
    var longer := out + [h];
    forall k | 0 <= k < |longer|
      ensures Listable(g, asked + {a}, longer[k])
    {
      assert k < |out| ==> Listable(g, asked, out[k]);
    }
    forall b | b in asked + {a} && Stale(g, b)
      ensures Has(longer, b)
    {
      HasMore(out, h, b);
    }
    forall j, k | 0 <= j < k < |longer|
      ensures longer[j].slot != longer[k].slot
    {
      assert Listable(g, asked, out[j]);
    }
  }

  ghost predicate EntryStores(g: Body, a: string) {
    "entry" in g.acc && Event(Write(true), a) in g.acc["entry"]
  }

  /** The slots the entry block itself stores to; one that a call there fills is not among them. */
  method Defined(g: Body) returns (defined: set<string>)
    ensures forall a :: a in defined <==> EntryStores(g, a)
  {
    var ev := Events(g, ENTRY);
    defined := {};
    for i := 0 to |ev|
      invariant forall a :: a in defined <==> Event(Write(true), a) in ev[..i]
    {
      assert ev[..i + 1] == ev[..i] + [ev[i]];
      if ev[i].kind == Write(true) {
        defined := defined + {ev[i].slot};
      }
    }
    assert ev[..|ev|] == ev;
  }

  /** The slots reported: those the entry block does not itself store to that some run from a resume root reads
      first. */
  method Report(g: Body, allocas: set<string>) returns (out: seq<Hit>)
    ensures forall a :: Has(out, a) <==> a in allocas && !EntryStores(g, a) && Stale(g, a)
    ensures forall k :: 0 <= k < |out| ==> RightHit(g, out[k], out[k].slot)
    ensures forall j, k :: 0 <= j < k < |out| ==> out[j].slot != out[k].slot
  {
    out := [];
    var defined := Defined(g);
    var roots := Roots(g);
    if roots == [] {
      assert forall a :: !Stale(g, a);
      return;
    }
    var todo := allocas - defined;
    ghost var asked: set<string> := {};
    while todo != {}
      invariant todo !! asked && todo + asked == allocas - defined && Listed(g, asked, out)
      decreases todo
    {
      var a :| a in todo;
      var hit := Search(g, roots, a);
      ListedNext(g, asked, out, a, hit);
      if hit.Some? {
        out := out + [hit.value];
      }
      todo, asked := todo - {a}, asked + {a};
    }
  }
}
