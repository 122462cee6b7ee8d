/** What the levels of the expression parser mean: how the tokens of operands and operators group, by tables of their
    own. */
module Precedence {
  import opened Grammar

  /** The operators between two operands that group from the left, loosest first. */
  const ROWS: seq<seq<Sym>> := [
    [Defaults], [Emphatic],
    [OrOr], [AndAnd], [Or], [Xor], [And],
    [EqEq, NotEq], [Lt, Le, Gt, Ge, Order], [Shl, Shr], [Plus, Minus], [Star, Slash, Percent]]

  const RANGES: seq<Sym> := [Dots, AllDots]
  const UNARIES: seq<Sym> := [Not, Tilde, Minus, At, Follow, BorrowI, BorrowM, Inc, Dec]
  const RESULTS: seq<Sym> := [Raw, Discard, Relay, Await]
  const PIPES: seq<Sym> := [PipeTo, PipeFrom]

  ghost predicate InRows(s: Sym) {
    exists i :: 0 <= i < |ROWS| && s in ROWS[i]
  }

  /** What needs no parentheses anywhere: an atom, a call or a postfix step on one. */
  ghost predicate Closed(t: Tree) {
    Proper(t) && (t.Leaf? || t.Post? || t.Call?)
  }

  /** Anything tighter than the operators in rows: their operands. */
  ghost predicate Operand(t: Tree) {
    Proper(t) && (t.Infix? ==> !InRows(t.op))
  }

  lemma RowLevel(i: nat, s: Sym)
    requires i < |ROWS| && s in ROWS[i]
    ensures InfixLevel(s) == i && LeftAssoc(i)
  {}

  lemma OperandRung(t: Tree)
    requires Operand(t)
    ensures Rung(t) >= RANGE
  {
    if t.Infix? && InfixLevel(t.op) < RANGE { RowOf(t.op); }
  }

  lemma RowOf(s: Sym)
    requires InfixLevel(s) < RANGE
    ensures InRows(s)
  {
    assert s in ROWS[InfixLevel(s)];
  }

  lemma NoParens(t: Tree, level: nat)
    requires Proper(t) && Rung(t) >= level
    ensures Print(t, level) == Bare(t)
  {}

  lemma InRow(i: nat, p: Sym, x: Tree, y: Tree)
    requires i < |ROWS| && p in ROWS[i] && Proper(x) && Proper(y) && Rung(x) >= i && Rung(y) > i
    ensures Proper(Infix(p, x, y)) && Rung(Infix(p, x, y)) == i
    ensures Bare(Infix(p, x, y)) == Bare(x) + [S(p)] + Bare(y)
  {
    RowLevel(i, p);
    NoParens(x, i);
    NoParens(y, i + 1);
  }

  lemma Reads(t: Tree, ts: seq<Token>)
    requires Proper(t) && ts == Bare(t)
    ensures Parse(0, ts + [End]) == Ok(t, [End])
  {
    RoundTrip(t);
    NoParens(t, 0);
  }

  lemma GroupsLeft(x: Tree, i: nat, p: Sym, y: Tree, j: nat, q: Sym, z: Tree)
    requires j <= i < |ROWS| && p in ROWS[i] && q in ROWS[j] && Operand(x) && Operand(y) && Operand(z)
    ensures Parse(0, Bare(x) + [S(p)] + Bare(y) + [S(q)] + Bare(z) + [End]) == Ok(Infix(q, Infix(p, x, y), z), [End])
  {
    OperandRung(x);
    OperandRung(y);
    OperandRung(z);
    InRow(i, p, x, y);
    InRow(j, q, Infix(p, x, y), z);
    Reads(Infix(q, Infix(p, x, y), z), Bare(x) + [S(p)] + Bare(y) + [S(q)] + Bare(z));
  }

  lemma GroupsRight(x: Tree, i: nat, p: Sym, y: Tree, j: nat, q: Sym, z: Tree)
    requires i < j < |ROWS| && p in ROWS[i] && q in ROWS[j] && Operand(x) && Operand(y) && Operand(z)
    ensures Parse(0, Bare(x) + [S(p)] + Bare(y) + [S(q)] + Bare(z) + [End]) == Ok(Infix(p, x, Infix(q, y, z)), [End])
  {
    OperandRung(x);
    OperandRung(y);
    OperandRung(z);
    InRow(j, q, y, z);
    InRow(i, p, x, Infix(q, y, z));
    assert Bare(x) + [S(p)] + (Bare(y) + [S(q)] + Bare(z)) == Bare(x) + [S(p)] + Bare(y) + [S(q)] + Bare(z);
    Reads(Infix(p, x, Infix(q, y, z)), Bare(x) + [S(p)] + Bare(y) + [S(q)] + Bare(z));
  }

  /** Two operators in rows: the looser one is outermost, and within a row the first of the two binds first. */
  lemma Groups(x: Tree, i: nat, p: Sym, y: Tree, j: nat, q: Sym, z: Tree)
    requires i < |ROWS| && p in ROWS[i] && j < |ROWS| && q in ROWS[j] && Operand(x) && Operand(y) && Operand(z)
    ensures Parse(0, Bare(x) + [S(p)] + Bare(y) + [S(q)] + Bare(z) + [End])
         == Ok(if i >= j then Infix(q, Infix(p, x, y), z) else Infix(p, x, Infix(q, y, z)), [End])
  {
    if i >= j { GroupsLeft(x, i, p, y, j, q, z); } else { GroupsRight(x, i, p, y, j, q, z); }
  }

  lemma PrefixLevels(u: Sym)
    ensures u in UNARIES ==> PrefixLevel(u) == UNARY
    ensures u in RESULTS ==> PrefixLevel(u) == RESULT
    ensures u in PIPES ==> InfixLevel(u) == PIPE
  {}

  lemma PrefixRung(u: Sym, x: Tree)
    requires (u in UNARIES || u in RESULTS) && Proper(x) && (x.Infix? ==> x.op in PIPES)
             && (x.Prefix? ==> u in UNARIES || x.op in RESULTS)
    ensures Proper(Prefix(u, x)) && Rung(Prefix(u, x)) >= UNARY && Bare(Prefix(u, x)) == [S(u)] + Bare(x)
  {
    PrefixLevels(u);
    if x.Infix? { PrefixLevels(x.op); }
    if x.Prefix? { PrefixLevels(x.op); }
    NoParens(x, PrefixLevel(u));
  }

  /** A prefix operator takes its operand before any operator between operands does. */
  lemma PrefixFirst(u: Sym, x: Tree, i: nat, p: Sym, y: Tree)
    requires (u in UNARIES || u in RESULTS) && Closed(x) && i < |ROWS| && p in ROWS[i] && Operand(y)
    ensures Parse(0, [S(u)] + Bare(x) + [S(p)] + Bare(y) + [End]) == Ok(Infix(p, Prefix(u, x), y), [End])
    ensures Parse(0, Bare(y) + [S(p)] + [S(u)] + Bare(x) + [End]) == Ok(Infix(p, y, Prefix(u, x)), [End])
  {
    OperandRung(y);
    PrefixRung(u, x);
    InRow(i, p, Prefix(u, x), y);
    Reads(Infix(p, Prefix(u, x), y), [S(u)] + Bare(x) + [S(p)] + Bare(y));
    InRow(i, p, y, Prefix(u, x));
    assert Bare(y) + [S(p)] + ([S(u)] + Bare(x)) == Bare(y) + [S(p)] + [S(u)] + Bare(x);
    Reads(Infix(p, y, Prefix(u, x)), Bare(y) + [S(p)] + [S(u)] + Bare(x));
  }

  /** Also before a range operator, on both sides. */
  lemma RangeLast(u: Sym, x: Tree, d: Sym, w: Sym, y: Tree)
    requires (u in UNARIES || u in RESULTS) && (w in UNARIES || w in RESULTS) && d in RANGES && Closed(x) && Closed(y)
    ensures Parse(0, [S(u)] + Bare(x) + [S(d)] + [S(w)] + Bare(y) + [End])
         == Ok(Infix(d, Prefix(u, x), Prefix(w, y)), [End])
  {
    PrefixRung(u, x);
    PrefixRung(w, y);
    var t := Infix(d, Prefix(u, x), Prefix(w, y));
    NoParens(t.left, UNARY);
    NoParens(t.right, UNARY);
    assert Bare(t) == ([S(u)] + Bare(x)) + [S(d)] + ([S(w)] + Bare(y));
    Reads(t, [S(u)] + Bare(x) + [S(d)] + [S(w)] + Bare(y));
  }

  /** But a pipe, and a postfix step, is taken before a prefix operator. */
  lemma PipeFirst(u: Sym, x: Tree, d: Sym, y: Tree)
    requires (u in UNARIES || u in RESULTS) && d in PIPES && Closed(x) && Closed(y)
    ensures Parse(0, [S(u)] + Bare(x) + [S(d)] + Bare(y) + [End]) == Ok(Prefix(u, Infix(d, x, y)), [End])
  {
    Piped(d, x, y);
    PrefixRung(u, Infix(d, x, y));
    assert [S(u)] + (Bare(x) + [S(d)] + Bare(y)) == [S(u)] + Bare(x) + [S(d)] + Bare(y);
    Reads(Prefix(u, Infix(d, x, y)), [S(u)] + Bare(x) + [S(d)] + Bare(y));
  }

  lemma Piped(d: Sym, x: Tree, y: Tree)
    requires d in PIPES && Proper(x) && Closed(y) && (Closed(x) || (x.Infix? && x.op in PIPES))
    ensures Proper(Infix(d, x, y)) && Bare(Infix(d, x, y)) == Bare(x) + [S(d)] + Bare(y)
  {
    NoParens(x, PIPE);
    NoParens(y, PIPE + 1);
  }

  lemma PostFirst(u: Sym, x: Tree, d: Sym)
    requires (u in UNARIES || u in RESULTS) && (d == Inc || d == Dec) && Closed(x)
    ensures Parse(0, [S(u)] + Bare(x) + [S(d)] + [End]) == Ok(Prefix(u, Post(d, x)), [End])
  {
    NoParens(x, POSTFIX);
    PrefixRung(u, Post(d, x));
    assert [S(u)] + (Bare(x) + [S(d)]) == [S(u)] + Bare(x) + [S(d)];
    Reads(Prefix(u, Post(d, x)), [S(u)] + Bare(x) + [S(d)]);
  }

  /** Pipes group from the left. */
  lemma PipesGroup(x: Tree, p: Sym, y: Tree, q: Sym, z: Tree)
    requires p in PIPES && q in PIPES && Closed(x) && Closed(y) && Closed(z)
    ensures Parse(0, Bare(x) + [S(p)] + Bare(y) + [S(q)] + Bare(z) + [End]) == Ok(Infix(q, Infix(p, x, y), z), [End])
  {
    Piped(p, x, y);
    Piped(q, Infix(p, x, y), z);
    Reads(Infix(q, Infix(p, x, y), z), Bare(x) + [S(p)] + Bare(y) + [S(q)] + Bare(z));
  }

  /** An arithmetic prefix takes a Result prefix after it. */
  lemma ResultFirst(u: Sym, w: Sym, x: Tree)
    requires u in UNARIES && w in RESULTS && Closed(x)
    ensures Parse(0, [S(u)] + [S(w)] + Bare(x) + [End]) == Ok(Prefix(u, Prefix(w, x)), [End])
  {
    PrefixRung(w, x);
    PrefixRung(u, Prefix(w, x));
    assert [S(u)] + ([S(w)] + Bare(x)) == [S(u)] + [S(w)] + Bare(x);
    Reads(Prefix(u, Prefix(w, x)), [S(u)] + [S(w)] + Bare(x));
  }

  /** But not the other way round: nothing reads as a Result prefix on an arithmetic one. */
  lemma UnaryLast(u: Sym, w: Sym, rest: seq<Token>)
    requires u in UNARIES && w in RESULTS
    ensures Parse(0, [S(w)] + [S(u)] + rest).Err?
  {
    NoOperand(u, rest);
    assert ([S(w)] + [S(u)] + rest)[1..] == [S(u)] + rest;
    NoneAt(0, [S(w)] + [S(u)] + rest);
  }

  lemma NoOperand(u: Sym, rest: seq<Token>)
    requires u in UNARIES
    ensures Parse(RESULT, [S(u)] + rest).Err?
  {
    var ts := [S(u)] + rest;
    assert Peek(ts) == S(u);
    assert Parse(PRIMARY, ts).Err?;
    assert Parse(POSTFIX, ts).Err?;
    assert Parse(PIPE, ts).Err?;
  }

  lemma {:induction false} NoneAt(level: nat, ts: seq<Token>)
    requires level <= RESULT && Peek(ts).S? && PrefixLevel(Peek(ts).sym) == RESULT && Parse(RESULT, ts[1..]).Err?
    ensures Parse(level, ts).Err?
    decreases RESULT - level
  {
    if level < RESULT { NoneAt(level + 1, ts); }
  }
}
