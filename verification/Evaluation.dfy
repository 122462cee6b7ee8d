/** What the explicit reading computes, in plain terms: expressions by their operands' values, steps by the
    variables they assign, and the steps a control leaves. */
module Evaluation {
  import opened Words
  import opened Models

  /** Every operand has a value. */
  ghost predicate Computes(args: seq<Exp>, s: State, xs: seq<int>) {
    |xs| == |args| && forall i :: 0 <= i < |xs| ==> Eval(args[i], s) == Some(xs[i])
  }

  /** An application's value is a proposition's. */
  ghost predicate Answers(op: Op, args: seq<Exp>, s: State, p: bool) {
    Eval(App(op, args), s) == Some(if p then 1 else 0)
  }

  // --- comparisons -------------------------------------------------------------------------------

  ghost predicate Neighbours(op: Op, xs: seq<int>) {
    forall i, j :: 0 <= i < j < |xs| && j == i + 1 ==> Ordered(op, xs[i], xs[j])
  }

  lemma NeighboursFirst(op: Op, xs: seq<int>)
    requires |xs| > 1
    ensures Neighbours(op, xs) <==> Ordered(op, xs[0], xs[1]) && Neighbours(op, xs[1..])
  {
    var ys := xs[1..];
    if Neighbours(op, xs) {
      forall i, j | 0 <= i < j < |ys| && j == i + 1 ensures Ordered(op, ys[i], ys[j]) {
        assert xs[i + 1] == ys[i] && xs[j + 1] == ys[j];
      }
    }
    if Ordered(op, xs[0], xs[1]) && Neighbours(op, ys) {
      forall i, j | 0 <= i < j < |xs| && j == i + 1 ensures Ordered(op, xs[i], xs[j]) {
        if i > 0 { assert xs[i] == ys[i - 1] && xs[j] == ys[j - 1]; }
      }
    }
  }

  lemma {:induction false} ChainValue(op: Op, args: seq<Exp>, s: State, xs: seq<int>)
    requires Computes(args, s, xs)
    ensures Chain(op, args, s) == Some(Bool(Neighbours(op, xs)))
  {
    if |args| > 1 {
      NeighboursFirst(op, xs);
      if Ordered(op, xs[0], xs[1]) { ChainValue(op, args[1..], s, xs[1..]); }
    }
  }

  /** A chain is true exactly when every two neighbours are in order. */
  lemma LessIs(args: seq<Exp>, s: State, xs: seq<int>)
    requires args != [] && Computes(args, s, xs)
    ensures Answers(Less, args, s, forall i, j :: 0 <= i < j < |xs| && j == i + 1 ==> xs[i] < xs[j])
  {
    ChainValue(Less, args, s, xs);
  }

  lemma LessEqIs(args: seq<Exp>, s: State, xs: seq<int>)
    requires args != [] && Computes(args, s, xs)
    ensures Answers(LessEq, args, s, forall i, j :: 0 <= i < j < |xs| && j == i + 1 ==> xs[i] <= xs[j])
  {
    ChainValue(LessEq, args, s, xs);
  }

  lemma GreaterIs(args: seq<Exp>, s: State, xs: seq<int>)
    requires args != [] && Computes(args, s, xs)
    ensures Answers(Greater, args, s, forall i, j :: 0 <= i < j < |xs| && j == i + 1 ==> xs[i] > xs[j])
  {
    ChainValue(Greater, args, s, xs);
  }

  lemma GreaterEqIs(args: seq<Exp>, s: State, xs: seq<int>)
    requires args != [] && Computes(args, s, xs)
    ensures Answers(GreaterEq, args, s, forall i, j :: 0 <= i < j < |xs| && j == i + 1 ==> xs[i] >= xs[j])
  {
    ChainValue(GreaterEq, args, s, xs);
  }

  lemma {:induction false} SameValue(x: int, args: seq<Exp>, s: State, xs: seq<int>)
    requires Computes(args, s, xs)
    ensures SameAs(x, args, s) == Some(if forall i :: 0 <= i < |xs| ==> xs[i] == x then 1 else 0)
  {
    if args != [] && xs[0] == x {
      SameValue(x, args[1..], s, xs[1..]);
      assert forall i :: 0 < i < |xs| ==> xs[i] == xs[1..][i - 1];
    }
  }

  /** `=` is true exactly when every operand has the first one's value. */
  lemma EqualIs(args: seq<Exp>, s: State, xs: seq<int>)
    requires args != [] && Computes(args, s, xs)
    ensures Answers(Equal, args, s, forall i :: 0 <= i < |xs| ==> xs[i] == xs[0])
  {
    SameValue(xs[0], args[1..], s, xs[1..]);
    assert forall i :: 0 < i < |xs| ==> xs[i] == xs[1..][i - 1];
  }

  lemma {:induction false} NoneEqualValue(x: int, args: seq<Exp>, s: State, xs: seq<int>)
    requires Computes(args, s, xs)
    ensures NoneEqual(x, args, s) == Some(if forall i :: 0 <= i < |xs| ==> xs[i] != x then 1 else 0)
  {
    if args != [] && xs[0] != x {
      NoneEqualValue(x, args[1..], s, xs[1..]);
      assert forall i :: 0 < i < |xs| ==> xs[i] == xs[1..][i - 1];
    }
  }

  ghost predicate AllDiffer(xs: seq<int>) {
    forall i, j :: 0 <= i < j < |xs| ==> xs[i] != xs[j]
  }

  lemma DifferFirst(xs: seq<int>)
    requires xs != []
    ensures AllDiffer(xs) <==> AllDiffer(xs[1..]) && forall i :: 0 <= i < |xs[1..]| ==> xs[1..][i] != xs[0]
  {
    var ys := xs[1..];
    assert forall i :: 0 < i < |xs| ==> xs[i] == ys[i - 1];
    assert forall i :: 0 <= i < |ys| ==> ys[i] == xs[i + 1];
  }

  lemma {:induction false} DistinctValue(args: seq<Exp>, s: State, xs: seq<int>)
    requires Computes(args, s, xs)
    ensures AllDistinct(args, s) == Some(if AllDiffer(xs) then 1 else 0)
  {
    if |args| > 1 {
      DifferFirst(xs);
      NoneEqualValue(xs[0], args[1..], s, xs[1..]);
      DistinctValue(args[1..], s, xs[1..]);
    }
  }

  /** `distinct` is true exactly when no two operands have one value. */
  lemma DistinctIs(args: seq<Exp>, s: State, xs: seq<int>)
    requires args != [] && Computes(args, s, xs)
    ensures Answers(Distinct, args, s, forall i, j :: 0 <= i < j < |xs| ==> xs[i] != xs[j])
  {
    DistinctValue(args, s, xs);
  }

  // --- operands that cannot be computed ------------------------------------------------------------

  /** The operands before the n-th have values, and the n-th has none. */
  ghost predicate StopsAt(args: seq<Exp>, s: State, xs: seq<int>) {
    |xs| < |args| && |args| > 1 && Computes(args[..|xs|], s, xs) && Eval(args[|xs|], s).None?
  }

  lemma StopsNext(args: seq<Exp>, s: State, xs: seq<int>)
    requires StopsAt(args, s, xs) && |xs| > 0
    ensures Eval(args[0], s) == Some(xs[0]) && (|args| > 2 ==> StopsAt(args[1..], s, xs[1..]))
    ensures |xs| > 1 ==> Eval(args[1], s) == Some(xs[1])
  {
    assert args[..|xs|][0] == args[0];
    if |xs| > 1 { assert args[..|xs|][1] == args[1]; }
    assert args[1..][..|xs| - 1] == args[..|xs|][1..];
    forall i | 0 <= i < |xs| - 1 ensures Eval(args[1..][i], s) == Some(xs[1..][i]) {
      assert args[..|xs|][i + 1] == args[1..][i];
    }
  }

  /** A chain is false once two neighbours are out of order; an operand met before that has to be computed. */
  lemma {:induction false} ChainStops(op: Op, args: seq<Exp>, s: State, xs: seq<int>)
    requires StopsAt(args, s, xs)
    ensures Chain(op, args, s) == if Neighbours(op, xs) then None else Some(0)
  {
    if |xs| > 0 { StopsNext(args, s, xs); }
    if |xs| > 1 {
      NeighboursFirst(op, xs);
      if Ordered(op, xs[0], xs[1]) { ChainStops(op, args[1..], s, xs[1..]); }
    }
  }

  lemma {:induction false} SameStops(x: int, args: seq<Exp>, s: State, xs: seq<int>)
    requires |xs| < |args| && Computes(args[..|xs|], s, xs) && Eval(args[|xs|], s).None?
    ensures SameAs(x, args, s) == if forall i :: 0 <= i < |xs| ==> xs[i] == x then None else Some(0)
  {
    if |xs| > 0 {
      assert args[..|xs|][0] == args[0] && args[1..][..|xs| - 1] == args[..|xs|][1..];
      if xs[0] == x {
        SameStops(x, args[1..], s, xs[1..]);
        assert forall i :: 0 < i < |xs| ==> xs[i] == xs[1..][i - 1];
      }
    }
  }

  lemma {:induction false} NoneEqualStops(x: int, args: seq<Exp>, s: State, xs: seq<int>)
    requires |xs| < |args| && Computes(args[..|xs|], s, xs) && Eval(args[|xs|], s).None?
    ensures NoneEqual(x, args, s) == if forall i :: 0 <= i < |xs| ==> xs[i] != x then None else Some(0)
  {
    if |xs| > 0 {
      assert args[..|xs|][0] == args[0] && args[1..][..|xs| - 1] == args[..|xs|][1..];
      if xs[0] != x {
        NoneEqualStops(x, args[1..], s, xs[1..]);
        assert forall i :: 0 < i < |xs| ==> xs[i] == xs[1..][i - 1];
      }
    }
  }

  /** Comparisons read their operands in order, and are decided or fail at the first that settles them. */
  lemma ChainFails(op: Op, args: seq<Exp>, s: State, xs: seq<int>)
    requires StopsAt(args, s, xs) && (op.Less? || op.LessEq? || op.Greater? || op.GreaterEq?)
    ensures Eval(App(op, args), s) == if Neighbours(op, xs) then None else Some(0)
  {
    ChainStops(op, args, s, xs);
  }

  lemma EqualFails(args: seq<Exp>, s: State, xs: seq<int>)
    requires StopsAt(args, s, xs)
    ensures Eval(App(Equal, args), s) == if forall i :: 0 <= i < |xs| ==> xs[i] == xs[0] then None else Some(0)
  {
    if |xs| > 0 {
      RestStops(args, s, xs);
      SameStops(xs[0], args[1..], s, xs[1..]);
      assert forall i :: 0 < i < |xs| ==> xs[i] == xs[1..][i - 1];
    }
  }

  lemma DistinctFails(args: seq<Exp>, s: State, xs: seq<int>)
    requires StopsAt(args, s, xs)
    ensures Eval(App(Distinct, args), s) == if forall i :: 0 < i < |xs| ==> xs[i] != xs[0] then None else Some(0)
  {
    if |xs| > 0 {
      RestStops(args, s, xs);
      NoneEqualStops(xs[0], args[1..], s, xs[1..]);
      assert forall i :: 0 < i < |xs| ==> xs[i] == xs[1..][i - 1];
    }
  }

  lemma RestStops(args: seq<Exp>, s: State, xs: seq<int>)
    requires StopsAt(args, s, xs) && |xs| > 0
    ensures Computes(args[1..][..|xs[1..]|], s, xs[1..]) && Eval(args[1..][|xs[1..]|], s).None?
    ensures Eval(args[0], s) == Some(xs[0])
  {
    StopsNext(args, s, xs);
    assert args[1..][..|xs| - 1] == args[..|xs|][1..];
  }

  // --- propositions ------------------------------------------------------------------------------

  /** Every operand before the k-th is true. */
  ghost predicate TrueTo(args: seq<Exp>, s: State, k: nat) {
    k <= |args| && forall i :: 0 <= i < k ==> Eval(args[i], s).Some? && Eval(args[i], s).value != 0
  }

  ghost predicate FalseTo(args: seq<Exp>, s: State, k: nat) {
    k <= |args| && forall i :: 0 <= i < k ==> Eval(args[i], s) == Some(0)
  }

  /** `and` reads its operands up to the first that is false or cannot be computed, and is that; else it is true. */
  lemma AndIs(args: seq<Exp>, s: State, k: nat)
    requires args != [] && TrueTo(args, s, k)
    requires k < |args| ==> Eval(args[k], s).None? || Eval(args[k], s).value == 0
    ensures Eval(App(And, args), s) == if k < |args| then Eval(args[k], s) else Some(1)
  {
    AndFrom(args, s, k);
  }

  lemma {:induction false} AndFrom(args: seq<Exp>, s: State, k: nat)
    requires TrueTo(args, s, k)
    requires k < |args| ==> Eval(args[k], s).None? || Eval(args[k], s).value == 0
    ensures AllTrue(args, s) == if k < |args| then Eval(args[k], s) else Some(1)
  {
    if k > 0 {
      assert args[0] == args[0 + 0];
      AndFrom(args[1..], s, k - 1);
    }
  }

  /** `or` reads them up to the first that is true or cannot be computed; else it is false. */
  lemma OrIs(args: seq<Exp>, s: State, k: nat)
    requires args != [] && FalseTo(args, s, k)
    requires k < |args| ==> Eval(args[k], s).None? || Eval(args[k], s).value != 0
    ensures Eval(App(Or, args), s)
         == if k == |args| then Some(0) else if Eval(args[k], s).None? then None else Some(1)
  {
    OrFrom(args, s, k);
  }

  lemma {:induction false} OrFrom(args: seq<Exp>, s: State, k: nat)
    requires FalseTo(args, s, k)
    requires k < |args| ==> Eval(args[k], s).None? || Eval(args[k], s).value != 0
    ensures AnyTrue(args, s) == if k == |args| then Some(0) else if Eval(args[k], s).None? then None else Some(1)
  {
    if k > 0 { OrFrom(args[1..], s, k - 1); }
  }

  /** The connectives by the truth of their parts. */
  lemma ConnectivesAre(args: seq<Exp>, s: State, xs: seq<int>)
    requires args != [] && Computes(args, s, xs)
    ensures Answers(And, args, s, forall i :: 0 <= i < |xs| ==> xs[i] != 0)
    ensures Answers(Or, args, s, exists i :: 0 <= i < |xs| && xs[i] != 0)
    ensures Answers(Op.Not, args, s, xs[0] == 0)
    ensures |xs| == 2 ==> Answers(Implies, args, s, xs[0] != 0 ==> xs[1] != 0)
    ensures |xs| == 3 ==> Eval(App(Ite, args), s) == Some(if xs[0] != 0 then xs[1] else xs[2])
  {
    var k := FirstNot(args, s, xs, true);
    AndIs(args, s, k);
    var j := FirstNot(args, s, xs, false);
    OrIs(args, s, j);
  }

  /** The first operand that is not of the truth value. */
  lemma FirstNot(args: seq<Exp>, s: State, xs: seq<int>, b: bool) returns (k: nat)
    requires Computes(args, s, xs)
    ensures k <= |xs| && (forall i :: 0 <= i < k ==> (xs[i] != 0) == b) && (k < |xs| ==> (xs[k] != 0) != b)
  {
    k := 0;
    while k < |xs| && (xs[k] != 0) == b
      invariant k <= |xs| && forall i :: 0 <= i < k ==> (xs[i] != 0) == b
    {
      k := k + 1;
    }
  }

  /** `=>` and `ite` read only the operands they need, and fail with those. */
  lemma LazilyAre(p: Exp, a: Exp, b: Exp, s: State)
    ensures Eval(p, s).None? ==> Eval(App(Op.Not, [p]), s).None? && Eval(App(Implies, [p, a]), s).None?
                                 && Eval(App(Ite, [p, a, b]), s).None?
    ensures Eval(p, s).Some? ==> var yes := Eval(p, s).value != 0;
      && Eval(App(Ite, [p, a, b]), s) == (if yes then Eval(a, s) else Eval(b, s))
      && (!yes ==> Eval(App(Implies, [p, a]), s) == Some(1))
      && (yes && Eval(a, s).None? ==> Eval(App(Implies, [p, a]), s).None?)
  {}

  lemma AtomsAre(n: int, v: nat, s: State)
    ensures Eval(Num(n), s) == Some(n) && Eval(Truth(true), s) == Some(1) && Eval(Truth(false), s) == Some(0)
    ensures v < |s| ==> Eval(Name(v), s) == Some(s[v])
  {}

  // --- arithmetic --------------------------------------------------------------------------------

  ghost function Sum(xs: seq<int>): int {
    if xs == [] then 0 else Sum(xs[..|xs| - 1]) + xs[|xs| - 1]
  }

  ghost function Product(xs: seq<int>): int {
    if xs == [] then 1 else Product(xs[..|xs| - 1]) * xs[|xs| - 1]
  }

  /** The first less all the others. */
  ghost function Difference(xs: seq<int>): int
    requires xs != []
  {
    xs[0] - Sum(xs[1..])
  }

  ghost function Total(op: Op, xs: seq<int>): int
    requires xs != []
  {
    if op.Plus? then Sum(xs) else if op.Minus? then Difference(xs) else Product(xs)
  }

  lemma TotalMore(op: Op, xs: seq<int>, y: int)
    requires xs != [] && (op.Plus? || op.Minus? || op.Times?)
    ensures Total(op, [xs[0]]) == xs[0]
    ensures Total(op, xs + [y]) == if op.Plus? then Total(op, xs) + y else
            if op.Minus? then Total(op, xs) - y else Total(op, xs) * y
  {
    assert (xs + [y])[..|xs|] == xs && [xs[0]][..0] == [];
    assert (xs + [y])[1..] == xs[1..] + [y] && (xs[1..] + [y])[..|xs| - 1] == xs[1..];
    assert Sum([xs[0]]) == xs[0] && Product([xs[0]]) == xs[0] && [xs[0]][1..] == [];
  }

  ghost predicate Small(v: int) {
    -2147483648 <= v <= 2147483648
  }

  /** Every operand, and every partial result but the last, is within 2^31. */
  ghost predicate Bounded(op: Op, xs: seq<int>)
    requires xs != []
  {
    |xs| == 1 || ((forall i :: 0 <= i < |xs| ==> Small(xs[i]))
                  && forall i :: 1 <= i < |xs| ==> Small(Total(op, xs[..i])))
  }

  /** The operands from the n-th on, and the partial results in front of them, are within 2^31. */
  ghost predicate SmallFrom(op: Op, xs: seq<int>, n: nat)
    requires 1 <= n <= |xs|
  {
    forall i :: n <= i < |xs| ==> Small(xs[i]) && Small(Total(op, xs[..i]))
  }

  /** What is left to fold once the first `n` operands are. */
  lemma {:induction false} FoldedIs(op: Op, args: seq<Exp>, s: State, xs: seq<int>, n: nat)
    requires Computes(args, s, xs) && 1 <= n <= |xs| && (op.Plus? || op.Minus? || op.Times?)
    ensures Folded(op, Some(Total(op, xs[..n])), args[n..], s)
         == if SmallFrom(op, xs, n) then Some(Total(op, xs)) else None
    decreases |xs| - n
  {
    if n == |xs| {
      assert xs[..n] == xs;
    } else {
      FoldedIs(op, args, s, xs, n + 1);
      TotalNext(op, xs, n);
      FoldStep(op, Total(op, xs[..n]), args, s, n, xs[n]);
      SmallNext(op, xs, n);
    }
  }

  lemma TotalNext(op: Op, xs: seq<int>, n: nat)
    requires 1 <= n < |xs| && (op.Plus? || op.Minus? || op.Times?)
    ensures Total(op, xs[..n + 1]) == Combined(op, Total(op, xs[..n]), xs[n])
  {
    TotalMore(op, xs[..n], xs[n]);
    assert xs[..n + 1] == xs[..n] + [xs[n]];
  }

  lemma SmallNext(op: Op, xs: seq<int>, n: nat)
    requires 1 <= n < |xs|
    ensures SmallFrom(op, xs, n) <==> Small(xs[n]) && Small(Total(op, xs[..n])) && SmallFrom(op, xs, n + 1)
  {}

  lemma FoldStep(op: Op, acc: int, args: seq<Exp>, s: State, n: nat, y: int)
    requires n < |args| && Eval(args[n], s) == Some(y)
    ensures Folded(op, Some(acc), args[n..], s)
         == if Small(acc) && Small(y) then Folded(op, Some(Combined(op, acc, y)), args[n + 1..], s) else None
  {
    assert args[n..][1..] == args[n + 1..] && args[n..][0] == args[n];
  }

  lemma FoldIs(op: Op, args: seq<Exp>, s: State, xs: seq<int>)
    requires args != [] && Computes(args, s, xs) && (op.Plus? || op.Minus? || op.Times?)
    ensures Folded(op, Eval(args[0], s), args[1..], s) == if Bounded(op, xs) then Some(Total(op, xs)) else None
  {
    FoldedIs(op, args, s, xs, 1);
    TotalMore(op, xs, 0);
    assert xs[..1] == [xs[0]];
    if |xs| > 1 && !Bounded(op, xs) {
      if i :| 0 <= i < |xs| && !Small(xs[i]) && i == 0 {
        assert !Small(Total(op, xs[..1]));
      }
    }
  }

  /** Sum, product and difference, computed exactly when every operand and every partial result is within 2^31. */
  lemma SumIs(args: seq<Exp>, s: State, xs: seq<int>)
    requires args != [] && Computes(args, s, xs)
    ensures Eval(App(Plus, args), s) == if Bounded(Plus, xs) then Some(Sum(xs)) else None
  {
    FoldIs(Plus, args, s, xs);
  }

  lemma ProductIs(args: seq<Exp>, s: State, xs: seq<int>)
    requires args != [] && Computes(args, s, xs)
    ensures Eval(App(Times, args), s) == if Bounded(Times, xs) then Some(Product(xs)) else None
  {
    FoldIs(Times, args, s, xs);
  }

  lemma DifferenceIs(args: seq<Exp>, s: State, xs: seq<int>)
    requires args != [] && Computes(args, s, xs)
    ensures Eval(App(Minus, args), s)
         == if |xs| == 1 then (if Small(xs[0]) then Some(-xs[0]) else None)
            else if Bounded(Minus, xs) then Some(xs[0] - Sum(xs[1..])) else None
  {
    FoldIs(Minus, args, s, xs);
  }

  /** And nothing is computed from an operand that cannot be. */
  lemma {:induction false} NothingFrom(op: Op, acc: Option<int>, args: seq<Exp>, s: State, i: nat)
    requires i < |args| && Eval(args[i], s).None?
    ensures Folded(op, acc, args, s).None?
    decreases |args|
  {
    if i > 0 && acc.Some? && Eval(args[0], s).Some? {
      NothingFrom(op, Some(Combined(op, acc.value, Eval(args[0], s).value)), args[1..], s, i - 1);
    }
  }

  lemma ArithmeticFails(op: Op, args: seq<Exp>, s: State, i: nat)
    requires i < |args| && Eval(args[i], s).None? && (op.Plus? || op.Minus? || op.Times?)
    ensures Eval(App(op, args), s).None?
  {
    if i > 0 { NothingFrom(op, Eval(args[0], s), args[1..], s, i - 1); }
  }

  // --- steps -------------------------------------------------------------------------------------

  /** The value a step gives a variable: its first binding's, read in the state before, or the one it has. */
  ghost predicate Assigned(next: seq<(nat, Exp)>, s: State, v: nat, x: int)
    requires v < |s|
  {
    || (exists i :: 0 <= i < |next| && next[i].0 == v && (forall j :: 0 <= j < i ==> next[j].0 != v)
                    && Eval(next[i].1, s) == Some(x))
    || ((forall j :: 0 <= j < |next| ==> next[j].0 != v) && x == s[v])
  }

  ghost predicate Updated(next: seq<(nat, Exp)>, s: State, s1: State) {
    |s1| == |s| && forall v :: 0 <= v < |s| ==> Assigned(next, s, v, s1[v])
  }

  lemma {:induction false} FirstBinding(next: seq<(nat, Exp)>, v: nat) returns (i: nat)
    ensures i <= |next| && (forall j :: 0 <= j < i ==> next[j].0 != v)
    ensures if i < |next| then next[i].0 == v && Binding(next, v) == Some(next[i].1) else Binding(next, v).None?
  {
    i := 0;
    if next != [] && next[0].0 != v {
      var k := FirstBinding(next[1..], v);
      i := k + 1;
      assert forall j :: 0 < j < i ==> next[j] == next[1..][j - 1];
    }
  }

  /** A variable's next value, if it can be computed. */
  function NextValue(next: seq<(nat, Exp)>, s: State, v: nat): Option<int>
    requires v < |s|
  {
    var b := Binding(next, v);
    if b.Some? then Eval(b.value, s) else Some(s[v])
  }

  lemma NextValueIs(next: seq<(nat, Exp)>, s: State, v: nat, x: int)
    requires v < |s|
    ensures NextValue(next, s, v) == Some(x) <==> Assigned(next, s, v, x)
  {
    var i := FirstBinding(next, v);
    if i < |next| && Assigned(next, s, v, x) {
      var k :| 0 <= k < |next| && next[k].0 == v && (forall j :: 0 <= j < k ==> next[j].0 != v)
               && Eval(next[k].1, s) == Some(x);
      assert k == i;
    }
  }

  lemma {:induction false} AfterEach(next: seq<(nat, Exp)>, s: State, n: nat)
    requires n <= |s|
    ensures After(next, s, n).Some? <==> forall v :: 0 <= v < n ==> NextValue(next, s, v).Some?
    ensures After(next, s, n).Some? ==>
              forall v :: 0 <= v < n ==> NextValue(next, s, v) == Some(After(next, s, n).value[v])
  {
    if n > 0 {
      AfterEach(next, s, n - 1);
      AfterStep(next, s, n - 1);
    }
  }

  lemma AfterStep(next: seq<(nat, Exp)>, s: State, n: nat)
    requires n < |s|
    ensures var r, x := After(next, s, n), NextValue(next, s, n);
      After(next, s, n + 1) == if r.None? || x.None? then None else Some(r.value + [x.value])
  {}

  /** The state after a step gives every variable its next value, all read in the state before. */
  lemma AfterIs(next: seq<(nat, Exp)>, s: State, s1: State)
    ensures After(next, s, |s|) == Some(s1) <==> Updated(next, s, s1)
    ensures After(next, s, |s|).None? <==> forall t :: !Updated(next, s, t)
  {
    AfterEach(next, s, |s|);
    AfterOne(next, s, s1);
    if After(next, s, |s|).Some? { AfterOne(next, s, After(next, s, |s|).value); }
    forall t | Updated(next, s, t) ensures After(next, s, |s|).Some? { AfterOne(next, s, t); }
  }

  lemma AfterOne(next: seq<(nat, Exp)>, s: State, s1: State)
    ensures After(next, s, |s|) == Some(s1) <==> Updated(next, s, s1)
  {
    AfterEach(next, s, |s|);
    if |s1| == |s| {
      forall v | 0 <= v < |s|
        ensures NextValue(next, s, v) == Some(s1[v]) <==> Assigned(next, s, v, s1[v])
      {
        NextValueIs(next, s, v, s1[v]);
      }
      if Updated(next, s, s1) {
        assert forall v :: 0 <= v < |s| ==> NextValue(next, s, v) == Some(s1[v]);
        assert After(next, s, |s|).value == s1;
      }
    }
  }

  /** The guard, or true for a step without one. */
  ghost predicate Enabled(st: Step, s: State) {
    st.guard.Some? ==> Eval(st.guard.value, s).Some? && Eval(st.guard.value, s).value != 0
  }

  /** A step taken moves exactly to the state its bindings give, if it is enabled and that state is in range. */
  lemma MovesIs(m: Model, st: Step, s: State, s1: State)
    requires |m.lo| == |m.hi| == |s|
    ensures Fire(m, st, s) == Moves(s1) <==>
              Enabled(st, s) && Updated(st.next, s, s1) && forall i :: 0 <= i < |s| ==> m.lo[i] <= s1[i] <= m.hi[i]
  {
    AfterIs(st.next, s, s1);
  }

  /** Out of range it names the first variable that leaves. */
  lemma LeavesIs(m: Model, st: Step, s: State, s1: State, v: nat)
    requires |m.lo| == |m.hi| == |s|
    ensures Fire(m, st, s) == Leaves(v, s1) <==>
              Enabled(st, s) && Updated(st.next, s, s1) && v < |s| && !(m.lo[v] <= s1[v] <= m.hi[v])
              && forall i :: 0 <= i < v ==> m.lo[i] <= s1[i] <= m.hi[i]
  {
    AfterIs(st.next, s, s1);
    if |s1| == |s| { FirstOutIs(m.lo, m.hi, s1, 0); }
  }

  /** It is idle exactly where its guard is false, and the reading gives up where guard or bindings have no value. */
  lemma IdleIs(m: Model, st: Step, s: State)
    requires |m.lo| == |m.hi| == |s|
    ensures Fire(m, st, s) == Idle <==> st.guard.Some? && Eval(st.guard.value, s) == Some(0)
    ensures Fire(m, st, s) == Problem <==>
              (st.guard.Some? && Eval(st.guard.value, s).None?)
              || (Enabled(st, s) && forall t :: !Updated(st.next, s, t))
  {
    AfterIs(st.next, s, s);
  }

  lemma {:induction false} FirstOutIs(lo: seq<int>, hi: seq<int>, s: State, v: nat)
    requires |lo| == |hi| == |s| && v <= |s|
    ensures var r := FirstOut(lo, hi, s, v); r.Some? ==> forall i :: v <= i < r.value ==> lo[i] <= s[i] <= hi[i]
    decreases |s| - v
  {
    if v < |s| && lo[v] <= s[v] <= hi[v] { FirstOutIs(lo, hi, s, v + 1); }
  }

  /** What each step does in a state. */
  ghost predicate Fired(m: Model, steps: seq<Step>, s: State, ticks: seq<Tick>) {
    |ticks| == |steps| && forall i :: 0 <= i < |steps| ==> ticks[i] == Fire(m, steps[i], s)
  }

  /** The steps that move, in order. */
  ghost predicate Moving(ticks: seq<Tick>, at: seq<nat>) {
    && (forall i, j :: 0 <= i < j < |at| ==> at[i] < at[j])
    && (forall j :: 0 <= j < |at| ==> at[j] < |ticks|)
    && (forall i :: 0 <= i < |ticks| ==> (i in at <==> ticks[i].Moves?))
  }

  ghost predicate TheirMoves(steps: seq<Step>, ticks: seq<Tick>, at: seq<nat>, moves: seq<(nat, State)>)
    requires |steps| == |ticks|
  {
    |moves| == |at| && forall j :: 0 <= j < |at| ==>
      at[j] < |steps| && ticks[at[j]] == Moves(moves[j].1) && moves[j].0 == steps[at[j]].thread
  }

  ghost predicate SomeProblem(ticks: seq<Tick>) {
    exists i :: 0 <= i < |ticks| && ticks[i].Problem?
  }

  /** The moves from a state are those of the steps that move, in the steps' order; and there are none once a step
      cannot be computed. */
  lemma {:induction false} SuccIs(m: Model, steps: seq<Step>, s: State, ticks: seq<Tick>) returns (at: seq<nat>)
    requires Fired(m, steps, s, ticks)
    ensures Moving(ticks, at)
    ensures if SomeProblem(ticks) then Succ(m, steps, s).None?
            else Succ(m, steps, s).Some? && TheirMoves(steps, ticks, at, Succ(m, steps, s).value)
  {
    at := [];
    if steps != [] {
      var k := |steps| - 1;
      at := SuccIs(m, steps[..k], s, ticks[..k]);
      SuccLast(m, steps, s, ticks[k]);
      MoreMoving(ticks, at);
      ProblemLast(ticks);
      if !SomeProblem(ticks) { MoreTheirs(steps, ticks, at, Succ(m, steps[..k], s).value); }
      if ticks[k].Moves? { at := at + [k]; }
    }
  }

  lemma ProblemLast(ticks: seq<Tick>)
    requires ticks != []
    ensures SomeProblem(ticks) <==> SomeProblem(ticks[..|ticks| - 1]) || ticks[|ticks| - 1].Problem?
  {
    var k := |ticks| - 1;
    if i :| 0 <= i < |ticks| && ticks[i].Problem? && i < k { assert ticks[..k][i].Problem?; }
  }

  lemma SuccLast(m: Model, steps: seq<Step>, s: State, x: Tick)
    requires steps != [] && x == Fire(m, steps[|steps| - 1], s)
    ensures var k: nat := |steps| - 1; var r := Succ(m, steps[..k], s);
      Succ(m, steps, s) == if r.None? || x.Problem? then None
                           else if x.Moves? then Some(r.value + [(steps[k].thread, x.to)]) else r
  {}

  lemma MoreMoving(ticks: seq<Tick>, at: seq<nat>)
    requires ticks != [] && Moving(ticks[..|ticks| - 1], at)
    ensures Moving(ticks, if ticks[|ticks| - 1].Moves? then at + [|ticks| - 1] else at)
  {
    var k := |ticks| - 1;
    assert forall i :: 0 <= i < k ==> ticks[..k][i] == ticks[i];
    assert forall i :: i in at ==> i < k;
    assert forall i :: i in at + [k] <==> i in at || i == k;
  }

  lemma MoreTheirs(steps: seq<Step>, ticks: seq<Tick>, at: seq<nat>, moves: seq<(nat, State)>)
    requires |steps| == |ticks| > 0 && TheirMoves(steps[..|steps| - 1], ticks[..|steps| - 1], at, moves)
    ensures TheirMoves(steps, ticks, at, moves)
    ensures var k: nat := |steps| - 1; ticks[k].Moves? ==>
              TheirMoves(steps, ticks, at + [k], moves + [(steps[k].thread, ticks[k].to)])
  {
    var k := |steps| - 1;
    assert forall i :: 0 <= i < k ==> steps[..k][i] == steps[i] && ticks[..k][i] == ticks[i];
  }

  // --- the steps under a control -------------------------------------------------------------------

  lemma {:induction false} ThreadIs(threads: seq<string>, name: string, i: nat)
    ensures ThreadIndex(threads, name) == Some(i) <==>
              i < |threads| && threads[i] == name && forall j :: 0 <= j < i ==> threads[j] != name
  {
    if threads != [] && threads[0] != name && i > 0 {
      ThreadIs(threads[1..], name, i - 1);
      assert forall j :: 0 < j < i && j < |threads| ==> threads[j] == threads[1..][j - 1];
    }
  }

  /** A mutation is about a step: it names the step, and its thread, by the first thread of that name. */
  ghost predicate Names(m: Model, mu: Mutation, st: Step) {
    && mu.step == st.name && st.thread < |m.threads| && m.threads[st.thread] == mu.thread
    && forall j :: 0 <= j < st.thread ==> m.threads[j] != mu.thread
  }

  /** The mutations of a control that give a step a new form, in order. */
  ghost predicate Replacing(m: Model, mus: seq<Mutation>, st: Step, at: seq<nat>) {
    && (forall i, j :: 0 <= i < j < |at| ==> at[i] < at[j])
    && (forall j :: 0 <= j < |at| ==> at[j] < |mus|)
    && (forall i :: 0 <= i < |mus| ==> (i in at <==> Names(m, mus[i], st) && mus[i].Replace?))
  }

  /** Each of these steps is the old one with one mutation's guard and assignments. */
  ghost predicate Reformed(mus: seq<Mutation>, st: Step, at: seq<nat>, steps: seq<Step>) {
    |steps| == |at| && forall j :: 0 <= j < |at| ==>
      at[j] < |mus| && mus[at[j]].Replace? && steps[j] == Step(st.thread, st.name, mus[at[j]].guard, mus[at[j]].next)
  }

  /** What is left of one step: itself when no mutation is about it, else a step for each replacement, in order. */
  lemma StepIs(m: Model, c: Control, st: Step) returns (at: seq<nat>)
    ensures Replacing(m, c.mutations, st, at)
    ensures var out := StepsUnder(m, c, [st]);
      if forall i :: 0 <= i < |c.mutations| ==> !Names(m, c.mutations[i], st) then out == [st]
      else Reformed(c.mutations, st, at, out)
  {
    at := HitsAre(m, st, c.mutations);
    HitsNone(m, st, c.mutations);
    assert StepsUnder(m, c, [st][1..]) == [];
  }

  /** Positions in a list, as they are once something stands before it. */
  function Later(at: seq<nat>): (r: seq<nat>)
    ensures |r| == |at| && forall i :: 0 <= i < |at| ==> r[i] == at[i] + 1
  {
    seq(|at|, i requires 0 <= i < |at| => at[i] + 1)
  }

  lemma LaterHas(at: seq<nat>, i: nat)
    ensures i in Later(at) <==> i > 0 && i - 1 in at
  {
    if i > 0 && i - 1 in at {
      var j :| 0 <= j < |at| && at[j] == i - 1;
      assert Later(at)[j] == i;
    }
  }

  lemma {:induction false} HitsAre(m: Model, st: Step, mus: seq<Mutation>) returns (at: seq<nat>)
    ensures Replacing(m, mus, st, at) && Reformed(mus, st, at, Replaced(st, Hits(m, st, mus)))
  {
    at := [];
    if mus != [] {
      var rest := HitsAre(m, st, mus[1..]);
      var first := Names(m, mus[0], st) && mus[0].Replace?;
      at := (if first then [0] else []) + Later(rest);
      FirstReplacing(m, mus, st, rest, first);
      FirstReformed(mus, st, rest, first, Replaced(st, Hits(m, st, mus[1..])));
      HitsFirst(m, st, mus);
    }
  }

  lemma FirstReplacing(m: Model, mus: seq<Mutation>, st: Step, rest: seq<nat>, first: bool)
    requires mus != [] && Replacing(m, mus[1..], st, rest) && first == (Names(m, mus[0], st) && mus[0].Replace?)
    ensures Replacing(m, mus, st, (if first then [0] else []) + Later(rest))
  {
    var at := (if first then [0] else []) + Later(rest);
    forall i | 0 <= i < |mus| ensures i in at <==> Names(m, mus[i], st) && mus[i].Replace? {
      LaterHas(rest, i);
      if i > 0 { assert mus[i] == mus[1..][i - 1]; }
    }
  }

  lemma FirstReformed(mus: seq<Mutation>, st: Step, rest: seq<nat>, first: bool, steps: seq<Step>)
    requires mus != [] && Reformed(mus[1..], st, rest, steps) && (first ==> mus[0].Replace?)
    ensures Reformed(mus, st, (if first then [0] else []) + Later(rest),
                     (if first then [Step(st.thread, st.name, mus[0].guard, mus[0].next)] else []) + steps)
  {
    forall j | 0 <= j < |rest| ensures rest[j] + 1 < |mus| && mus[rest[j] + 1] == mus[1..][rest[j]] {}
  }

  lemma HitsFirst(m: Model, st: Step, mus: seq<Mutation>)
    requires mus != []
    ensures Replaced(st, Hits(m, st, mus))
         == (if Names(m, mus[0], st) && mus[0].Replace?
             then [Step(st.thread, st.name, mus[0].guard, mus[0].next)] else [])
            + Replaced(st, Hits(m, st, mus[1..]))
  {
    ThreadIs(m.threads, mus[0].thread, st.thread);
    var rest := Hits(m, st, mus[1..]);
    assert ([mus[0]] + rest)[1..] == rest && [] + rest == rest;
  }

  lemma {:induction false} HitsNone(m: Model, st: Step, mus: seq<Mutation>)
    ensures Hits(m, st, mus) == [] <==> forall i :: 0 <= i < |mus| ==> !Names(m, mus[i], st)
  {
    if mus != [] {
      HitsNone(m, st, mus[1..]);
      ThreadIs(m.threads, mus[0].thread, st.thread);
      assert forall i :: 0 < i < |mus| ==> mus[i] == mus[1..][i - 1];
      assert forall i :: 0 <= i < |mus| - 1 ==> mus[1..][i] == mus[i + 1];
    }
  }

  /** Steps are replaced one by one, in their order. */
  lemma UnderEach(m: Model, c: Control, st: Step, rest: seq<Step>)
    ensures StepsUnder(m, c, []) == []
    ensures StepsUnder(m, c, [st] + rest) == StepsUnder(m, c, [st]) + StepsUnder(m, c, rest)
  {
    assert ([st] + rest)[1..] == rest && [st][1..] == [];
    assert StepsUnder(m, c, [st][1..]) == [];
  }
}
