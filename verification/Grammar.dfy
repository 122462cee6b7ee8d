/** The expression parser: a ladder of levels, loosest first, over tokens read with one token of lookahead. */
module Grammar {
  datatype Sym =
    | Defaults | Emphatic
    | OrOr | AndAnd | Or | Xor | And | EqEq | NotEq | Lt | Le | Gt | Ge | Order
    | Shl | Shr | Plus | Minus | Star | Slash | Percent
    | Dots | AllDots
    | Not | Tilde | At | Follow | BorrowI | BorrowM | Inc | Dec
    | Raw | Discard | Relay | Await
    | PipeTo | PipeFrom
    | Open | Close | Comma

  datatype Token = Atom(name: string) | S(sym: Sym) | End

  datatype Tree =
    | Leaf(name: string)
    | Infix(op: Sym, left: Tree, right: Tree)
    | Prefix(op: Sym, arg: Tree)
    | Post(op: Sym, arg: Tree)
    | Call(fn: Tree, args: seq<Tree>)

  /** The rungs that are not binary levels. */
  const RANGE := 12
  const UNARY := 13
  const RESULT := 14
  const PIPE := 15
  const POSTFIX := 16
  const PRIMARY := 17

  /** The rung an operator between two operands belongs to; 99 for every other symbol. */
  function InfixLevel(s: Sym): nat {
    match s
    case Defaults => 0
    case Emphatic => 1
    case OrOr => 2
    case AndAnd => 3
    case Or => 4
    case Xor => 5
    case And => 6
    case EqEq | NotEq => 7
    case Lt | Le | Gt | Ge | Order => 8
    case Shl | Shr => 9
    case Plus | Minus => 10
    case Star | Slash | Percent => 11
    case Dots | AllDots => RANGE
    case PipeTo | PipeFrom => PIPE
    case _ => 99
  }

  /** The rung an operator before its operand belongs to; 99 for every other symbol. */
  function PrefixLevel(s: Sym): nat {
    match s
    case Not | Tilde | Minus | At | Follow | BorrowI | BorrowM | Inc | Dec => UNARY
    case Raw | Discard | Relay | Await => RESULT
    case _ => 99
  }

  predicate Postfix(s: Sym) {
    s == Inc || s == Dec
  }

  /** Rungs that take any number of operands, grouped from the left. */
  predicate LeftAssoc(level: nat) {
    level < RANGE || level == PIPE
  }

  predicate Joins(t: Token, level: nat) {
    t.S? && InfixLevel(t.sym) == level
  }

  datatype Result = Ok(tree: Tree, rest: seq<Token>) | Err

  datatype ArgsResult = ArgsOk(args: seq<Tree>, left: seq<Token>) | ArgsErr

  function Peek(ts: seq<Token>): Token {
    if ts == [] then End else ts[0]
  }

  // ------------------------------------------------ what the parser reads

  function Parse(level: nat, ts: seq<Token>): (r: Result)
    requires level <= PRIMARY
    ensures r.Ok? ==> |r.rest| < |ts|
    decreases |ts|, 20 - level
  {
    if LeftAssoc(level) then
      var r := Parse(level + 1, ts);
      if r.Ok? then Loop(level, r.tree, r.rest) else Err
    else if level == RANGE then
      var r := Parse(UNARY, ts);
      if r.Ok? && Joins(Peek(r.rest), RANGE) then
        var q := Parse(UNARY, r.rest[1..]);
        if q.Ok? then Ok(Infix(r.rest[0].sym, r.tree, q.tree), q.rest) else Err
      else r
    else if level == UNARY || level == RESULT then
      if Peek(ts).S? && PrefixLevel(ts[0].sym) == level then
        var r := Parse(level, ts[1..]);
        if r.Ok? then Ok(Prefix(ts[0].sym, r.tree), r.rest) else Err
      else Parse(level + 1, ts)
    else if level == POSTFIX then
      var r := Parse(PRIMARY, ts);
      if r.Ok? then PostLoop(r.tree, r.rest) else Err
    else
      match Peek(ts)
      case Atom(name) => Ok(Leaf(name), ts[1..])
      case S(Open) =>
        var r := Parse(0, ts[1..]);
        if r.Ok? && Peek(r.rest) == S(Close) then Ok(r.tree, r.rest[1..]) else Err
      case _ => Err
  }

  /** What is left of a left-grouping rung once `e` has been read. */
  function Loop(level: nat, e: Tree, ts: seq<Token>): (r: Result)
    requires LeftAssoc(level)
    ensures r.Ok? ==> |r.rest| <= |ts|
    decreases |ts|, 0
  {
    if Joins(Peek(ts), level) then
      var r := Parse(level + 1, ts[1..]);
      if r.Ok? then Loop(level, Infix(ts[0].sym, e, r.tree), r.rest) else Err
    else Ok(e, ts)
  }

  function PostLoop(e: Tree, ts: seq<Token>): (r: Result)
    ensures r.Ok? ==> |r.rest| <= |ts|
    decreases |ts|, 0
  {
    if Peek(ts).S? && Postfix(ts[0].sym) then PostLoop(Post(ts[0].sym, e), ts[1..])
    else if Peek(ts) == S(Open) then
      var r := Arguments(ts[1..]);
      if r.ArgsOk? then PostLoop(Call(e, r.args), r.left) else Err
    else Ok(e, ts)
  }

  /** Arguments up to and with the closing parenthesis; a comma may end the list. */
  function Arguments(ts: seq<Token>): (r: ArgsResult)
    ensures r.ArgsOk? ==> |r.left| < |ts|
    decreases |ts|, 30
  {
    if Peek(ts) == S(Close) then ArgsOk([], ts[1..])
    else
      var r := Parse(0, ts);
      if !r.Ok? then ArgsErr
      else if Peek(r.rest) == S(Comma) then
        var more := Arguments(r.rest[1..]);
        if more.ArgsOk? then ArgsOk([r.tree] + more.args, more.left) else ArgsErr
      else if Peek(r.rest) == S(Close) then ArgsOk([r.tree], r.rest[1..])
      else ArgsErr
  }

  // ------------------------------------------------ printing

  /** Trees the parser can build: each operator at its own place. */
  ghost predicate Proper(t: Tree) {
    match t
    case Leaf(_) => true
    case Infix(op, l, r) => InfixLevel(op) <= PIPE && Proper(l) && Proper(r)
    case Prefix(op, x) => PrefixLevel(op) <= RESULT && Proper(x)
    case Post(op, x) => Postfix(op) && Proper(x)
    case Call(fn, args) => Proper(fn) && forall k :: 0 <= k < |args| ==> Proper(args[k])
  }

  function Rung(t: Tree): nat {
    match t
    case Leaf(_) => PRIMARY
    case Infix(op, _, _) => InfixLevel(op)
    case Prefix(op, _) => PrefixLevel(op)
    case Post(_, _) => POSTFIX
    case Call(_, _) => POSTFIX
  }

  ghost function Size(t: Tree): nat {
    match t
    case Leaf(_) => 1
    case Infix(_, l, r) => 1 + Size(l) + Size(r)
    case Prefix(_, x) => 1 + Size(x)
    case Post(_, x) => 1 + Size(x)
    case Call(fn, args) => 1 + Size(fn) + Sizes(args)
  }

  ghost function Sizes(ts: seq<Tree>): nat {
    if ts == [] then 0 else 1 + Size(ts[0]) + Sizes(ts[1..])
  }

  /** A tree where an operand of the given rung is due, with parentheses only where the rung asks for them. */
  function Print(t: Tree, level: nat): seq<Token>
    requires Proper(t)
    decreases Size(t), 1
  {
    if Rung(t) < level then [S(Open)] + Bare(t) + [S(Close)] else Bare(t)
  }

  function Bare(t: Tree): seq<Token>
    requires Proper(t)
    decreases Size(t), 0
  {
    match t
    case Leaf(name) => [Atom(name)]
    case Infix(op, l, r) =>
      var k := InfixLevel(op);
      Print(l, if k == RANGE then UNARY else k) + [S(op)] + Print(r, k + 1)
    case Prefix(op, x) => [S(op)] + Print(x, PrefixLevel(op))
    case Post(op, x) => Print(x, POSTFIX) + [S(op)]
    case Call(fn, args) => Print(fn, POSTFIX) + [S(Open)] + PrintArgs(args) + [S(Close)]
  }

  function PrintArgs(args: seq<Tree>): seq<Token>
    requires forall k :: 0 <= k < |args| ==> Proper(args[k])
    decreases Sizes(args), 0
  {
    if args == [] then []
    else if |args| == 1 then Print(args[0], 0)
    else Print(args[0], 0) + [S(Comma)] + PrintArgs(args[1..])
  }

  // ------------------------------------------------ round trip

  /** The next token cannot extend an operand read at this rung. */
  predicate Stops(t: Token, level: nat) {
    t.S? ==> (InfixLevel(t.sym) == 99 || InfixLevel(t.sym) < level) && !Postfix(t.sym) && t.sym != Open
  }

  /** How printed texts fall apart. */
  lemma Cons(x: Token, ys: seq<Token>)
    ensures Peek([x] + ys) == x && ([x] + ys)[1..] == ys
  {
  }

  lemma InfixText(t: Tree, post: seq<Token>)
    requires Proper(t) && t.Infix?
    ensures var k := InfixLevel(t.op);
      Bare(t) + post == Print(t.left, if k == RANGE then UNARY else k) + ([S(t.op)] + (Print(t.right, k + 1) + post))
  {
  }

  lemma PostText(t: Tree, post: seq<Token>)
    requires Proper(t) && t.Post?
    ensures Bare(t) + post == Print(t.arg, POSTFIX) + ([S(t.op)] + post)
  {
  }

  lemma CallText(t: Tree, post: seq<Token>)
    requires Proper(t) && t.Call?
    ensures Bare(t) + post == Print(t.fn, POSTFIX) + ([S(Open)] + (PrintArgs(t.args) + ([S(Close)] + post)))
  {
  }

  lemma PrefixText(t: Tree, level: nat, post: seq<Token>)
    requires Proper(t) && (level == UNARY || level == RESULT) && Rung(t) == level
    ensures t.Prefix? && PrefixLevel(t.op) == level
    ensures var ts := Print(t, level) + post; Peek(ts) == S(t.op) && ts[1..] == Print(t.arg, level) + post
  {
    assert Print(t, level) + post == [S(t.op)] + (Print(t.arg, level) + post);
    Cons(S(t.op), Print(t.arg, level) + post);
  }

  lemma ArgsText(args: seq<Tree>, close: seq<Token>)
    requires (forall k :: 0 <= k < |args| ==> Proper(args[k])) && |args| > 1
    ensures PrintArgs(args) + close == Print(args[0], 0) + ([S(Comma)] + (PrintArgs(args[1..]) + close))
  {
    Regroup(Print(args[0], 0), [S(Comma)], PrintArgs(args[1..]), close);
  }

  lemma Regroup(a: seq<Token>, b: seq<Token>, c: seq<Token>, d: seq<Token>)
    ensures (a + b + c) + d == a + (b + (c + d))
  {
  }

  /** One step of each reading function, with the outcomes of its parts given. */
  lemma ParenStep(ts: seq<Token>, t: Tree, rest: seq<Token>)
    requires Peek(ts) == S(Open) && Parse(0, ts[1..]) == Ok(t, rest) && Peek(rest) == S(Close)
    ensures Parse(PRIMARY, ts) == Ok(t, rest[1..])
  {
  }

  lemma LoopStep(level: nat, e: Tree, ts: seq<Token>, t: Tree, rest: seq<Token>)
    requires LeftAssoc(level) && Joins(Peek(ts), level) && Parse(level + 1, ts[1..]) == Ok(t, rest)
    ensures Loop(level, e, ts) == Loop(level, Infix(ts[0].sym, e, t), rest)
  {
  }

  lemma RangeStep(ts: seq<Token>, l: Tree, mid: seq<Token>, r: Tree, rest: seq<Token>)
    requires Parse(UNARY, ts) == Ok(l, mid) && Joins(Peek(mid), RANGE) && Parse(UNARY, mid[1..]) == Ok(r, rest)
    ensures Parse(RANGE, ts) == Ok(Infix(mid[0].sym, l, r), rest)
  {
  }

  lemma PostStep(e: Tree, ts: seq<Token>)
    requires Peek(ts).S? && Postfix(Peek(ts).sym)
    ensures PostLoop(e, ts) == PostLoop(Post(ts[0].sym, e), ts[1..])
  {
  }

  lemma CallStep(e: Tree, ts: seq<Token>, args: seq<Tree>, rest: seq<Token>)
    requires Peek(ts) == S(Open) && Arguments(ts[1..]) == ArgsOk(args, rest)
    ensures PostLoop(e, ts) == PostLoop(Call(e, args), rest)
  {
  }

  lemma LastArgument(ts: seq<Token>, t: Tree, rest: seq<Token>)
    requires Peek(ts) != S(Close) && Parse(0, ts) == Ok(t, rest) && Peek(rest) == S(Close)
    ensures Arguments(ts) == ArgsOk([t], rest[1..])
  {
  }

  lemma NextArgument(ts: seq<Token>, t: Tree, rest: seq<Token>, args: seq<Tree>, left: seq<Token>)
    requires Peek(ts) != S(Close) && Parse(0, ts) == Ok(t, rest) && Peek(rest) == S(Comma)
    requires Arguments(rest[1..]) == ArgsOk(args, left)
    ensures Arguments(ts) == ArgsOk([t] + args, left)
  {
  }

  /** Reading back what was printed, at any rung, whatever follows. */
  lemma {:induction false} ReadsBack(t: Tree, level: nat, post: seq<Token>)
    requires Proper(t) && level <= PRIMARY
    requires level < PRIMARY ==> Stops(Peek(post), level)
    ensures Parse(level, Print(t, level) + post) == Ok(t, post)
    decreases Size(t), if Rung(t) < level then 1 else 0, 20 - level, 1
  {
    if level == PRIMARY {
      ReadsPrimary(t, post);
    } else if level == POSTFIX {
      ReadsOn(t, level, post);
    } else if LeftAssoc(level) {
      ReadsOn(t, level, post);
    } else if level == RANGE {
      ReadsRange(t, post);
    } else {
      ReadsPrefix(t, level, post);
    }
  }

  lemma {:induction false} ReadsPrimary(t: Tree, post: seq<Token>)
    requires Proper(t)
    ensures Parse(PRIMARY, Print(t, PRIMARY) + post) == Ok(t, post)
    decreases Size(t), if Rung(t) < PRIMARY then 1 else 0, 20 - PRIMARY, 0
  {
    var ts := Print(t, PRIMARY) + post;
    StartsOperand(t, PRIMARY, post);
    if t.Leaf? {
      assert ts[1..] == post;
    } else {
      var tail := [S(Close)] + post;
      assert ts[1..] == Bare(t) + tail;
      assert Print(t, 0) == Bare(t);
      ReadsBack(t, 0, tail);
      ParenStep(ts, t, tail);
      assert tail[1..] == post;
    }
  }

  /** A rung reads a printed tree and then goes on with its own loop. */
  lemma {:induction false} ReadsOn(t: Tree, level: nat, post: seq<Token>)
    requires Proper(t) && (LeftAssoc(level) || level == POSTFIX)
    requires level < POSTFIX ==> Stops(Peek(post), level + 1)
    ensures Parse(level, Print(t, level) + post) == if level == POSTFIX then PostLoop(t, post) else Loop(level, t, post)
    decreases Size(t), if Rung(t) < level then 1 else 0, 20 - level, 0
  {
    if Rung(t) != level {
      assert Print(t, level) == Print(t, level + 1);
      ReadsBack(t, level + 1, post);
    } else if level == POSTFIX {
      ReadsPostfix(t, post);
    } else {
      ReadsInfix(t, level, post);
    }
  }

  lemma {:induction false} ReadsInfix(t: Tree, level: nat, post: seq<Token>)
    requires Proper(t) && LeftAssoc(level) && level < POSTFIX && Rung(t) == level && Stops(Peek(post), level + 1)
    ensures Parse(level, Print(t, level) + post) == Loop(level, t, post)
    decreases Size(t), 0, 20 - level, -1
  {
    var tail := [S(t.op)] + (Print(t.right, level + 1) + post);
    InfixText(t, post);
    Cons(S(t.op), Print(t.right, level + 1) + post);
    ReadsOn(t.left, level, tail);
    ReadsBack(t.right, level + 1, post);
    LoopStep(level, t.left, tail, t.right, post);
  }

  lemma {:induction false} ReadsPostfix(t: Tree, post: seq<Token>)
    requires Proper(t) && Rung(t) == POSTFIX
    ensures Parse(POSTFIX, Print(t, POSTFIX) + post) == PostLoop(t, post)
    decreases Size(t), 0, 20 - POSTFIX, -1
  {
    if t.Post? {
      PostText(t, post);
      Cons(S(t.op), post);
      ReadsOn(t.arg, POSTFIX, [S(t.op)] + post);
      PostStep(t.arg, [S(t.op)] + post);
    } else {
      var inner := PrintArgs(t.args) + ([S(Close)] + post);
      var tail := [S(Open)] + inner;
      CallText(t, post);
      Cons(S(Open), inner);
      ReadsOn(t.fn, POSTFIX, tail);
      ReadsArgs(t.args, post);
      CallStep(t.fn, tail, t.args, post);
    }
  }

  lemma {:induction false} ReadsArgs(args: seq<Tree>, post: seq<Token>)
    requires forall k :: 0 <= k < |args| ==> Proper(args[k])
    ensures Arguments(PrintArgs(args) + ([S(Close)] + post)) == ArgsOk(args, post)
    decreases Sizes(args), 0, 0, 0
  {
    var close := [S(Close)] + post;
    Cons(S(Close), post);
    if args == [] {
      assert PrintArgs(args) + close == close;
    } else if |args| == 1 {
      StartsOperand(args[0], 0, close);
      ReadsBack(args[0], 0, close);
      LastArgument(Print(args[0], 0) + close, args[0], close);
    } else {
      ReadsMore(args, post, close);
    }
  }

  lemma {:induction false} ReadsMore(args: seq<Tree>, post: seq<Token>, close: seq<Token>)
    requires (forall k :: 0 <= k < |args| ==> Proper(args[k])) && |args| > 1 && close == [S(Close)] + post
    ensures Arguments(PrintArgs(args) + close) == ArgsOk(args, post)
    decreases Sizes(args), 0, 0, -1
  {
    var tail := [S(Comma)] + (PrintArgs(args[1..]) + close);
    Cons(S(Comma), PrintArgs(args[1..]) + close);
    ReadsBack(args[0], 0, tail);
    ReadsArgs(args[1..], post);
    ArgsJoin(args, post, close, tail);
  }

  lemma ArgsJoin(args: seq<Tree>, post: seq<Token>, close: seq<Token>, tail: seq<Token>)
    requires (forall k :: 0 <= k < |args| ==> Proper(args[k])) && |args| > 1
    requires tail == [S(Comma)] + (PrintArgs(args[1..]) + close)
             && Parse(0, Print(args[0], 0) + tail) == Ok(args[0], tail)
    requires Arguments(PrintArgs(args[1..]) + close) == ArgsOk(args[1..], post)
    ensures Arguments(PrintArgs(args) + close) == ArgsOk(args, post)
  {
    ArgsText(args, close);
    ArgsRead(args[0], args[1..], tail, PrintArgs(args[1..]) + close, post);
    assert args == [args[0]] + args[1..];
  }

  lemma ArgsRead(t: Tree, more: seq<Tree>, tail: seq<Token>, inner: seq<Token>, post: seq<Token>)
    requires Proper(t) && tail == [S(Comma)] + inner && Parse(0, Print(t, 0) + tail) == Ok(t, tail)
    requires Arguments(inner) == ArgsOk(more, post)
    ensures Arguments(Print(t, 0) + tail) == ArgsOk([t] + more, post)
  {
    Cons(S(Comma), inner);
    StartsOperand(t, 0, tail);
    NextArgument(Print(t, 0) + tail, t, tail, more, post);
  }

  /** A printed tree never starts with a closing parenthesis. */
  lemma {:induction false} StartsOperand(t: Tree, level: nat, post: seq<Token>)
    requires Proper(t)
    ensures |Print(t, level)| > 0 && Peek(Print(t, level) + post) != S(Close)
    decreases Size(t)
  {
    if Rung(t) >= level {
      match t
      case Leaf(_) =>
      case Infix(op, l, _) =>
        var k := InfixLevel(op);
        StartsOperand(l, if k == RANGE then UNARY else k, []);
      case Prefix(_, _) =>
      case Post(_, x) => StartsOperand(x, POSTFIX, []);
      case Call(fn, _) => StartsOperand(fn, POSTFIX, []);
    }
  }

  lemma {:induction false} ReadsRange(t: Tree, post: seq<Token>)
    requires Proper(t) && Stops(Peek(post), RANGE)
    ensures Parse(RANGE, Print(t, RANGE) + post) == Ok(t, post)
    decreases Size(t), if Rung(t) < RANGE then 1 else 0, 20 - RANGE, 0
  {
    if Rung(t) == RANGE {
      var tail := [S(t.op)] + (Print(t.right, UNARY) + post);
      InfixText(t, post);
      Cons(S(t.op), Print(t.right, UNARY) + post);
      ReadsBack(t.left, UNARY, tail);
      ReadsBack(t.right, UNARY, post);
      RangeStep(Print(t, RANGE) + post, t.left, tail, t.right, post);
    } else {
      assert Print(t, RANGE) == Print(t, UNARY);
      ReadsBack(t, UNARY, post);
    }
  }

  lemma {:induction false} ReadsPrefix(t: Tree, level: nat, post: seq<Token>)
    requires Proper(t) && (level == UNARY || level == RESULT) && Stops(Peek(post), level)
    ensures Parse(level, Print(t, level) + post) == Ok(t, post)
    decreases Size(t), if Rung(t) < level then 1 else 0, 20 - level, 0
  {
    var ts := Print(t, level) + post;
    if Rung(t) == level {
      PrefixText(t, level, post);
      ReadsBack(t.arg, level, post);
    } else {
      assert Print(t, level) == Print(t, level + 1);
      StartsAbove(t, level, level + 1);
      assert Peek(ts) == Print(t, level + 1)[0];
      ReadsBack(t, level + 1, post);
    }
  }

  /** What is printed for a tighter rung does not start with a looser prefix operator. */
  lemma {:induction false} StartsAbove(t: Tree, level: nat, above: nat)
    requires Proper(t) && UNARY <= level < above && level <= RESULT
    ensures |Print(t, above)| > 0
    ensures Print(t, above)[0].S? ==> PrefixLevel(Print(t, above)[0].sym) != level
    decreases Size(t)
  {
    if Rung(t) >= above {
      match t
      case Leaf(_) =>
      case Infix(op, l, _) =>
        StartsAbove(l, level, PIPE);
        assert Bare(t)[0] == Print(l, PIPE)[0];
      case Prefix(_, _) =>
      case Post(_, x) =>
        StartsAbove(x, level, POSTFIX);
        assert Bare(t)[0] == Print(x, POSTFIX)[0];
      case Call(fn, _) =>
        StartsAbove(fn, level, POSTFIX);
        assert Bare(t)[0] == Print(fn, POSTFIX)[0];
    } else {
      assert Print(t, above)[0] == S(Open);
    }
  }

  /** Printing a tree and parsing the tokens gives the tree back. */
  lemma RoundTrip(t: Tree)
    requires Proper(t)
    ensures Parse(0, Print(t, 0) + [End]) == Ok(t, [End])
  {
    ReadsBack(t, 0, [End]);
  }

  // ------------------------------------------------ nothing shorter

  lemma PrintLess(t: Tree, a: nat, b: nat)
    requires Proper(t) && a <= b
    ensures |Print(t, a)| <= |Print(t, b)| <= |Print(t, a)| + 2
  {
  }

  /** What a rung reads is a tree in its place, and printed for that rung it takes no more tokens than were read. */
  lemma {:induction false} Least(level: nat, ts: seq<Token>)
    requires level <= PRIMARY && Parse(level, ts).Ok?
    ensures var r := Parse(level, ts); Proper(r.tree) && |Print(r.tree, level)| + |r.rest| <= |ts|
    decreases |ts|, 20 - level
  {
    if LeftAssoc(level) {
      var r := Parse(level + 1, ts);
      Least(level + 1, ts);
      PrintLess(r.tree, level, level + 1);
      LeastLoop(level, r.tree, r.rest);
    } else if level == RANGE {
      LeastRange(ts);
    } else if level == UNARY || level == RESULT {
      if Peek(ts).S? && PrefixLevel(ts[0].sym) == level {
        Least(level, ts[1..]);
      } else {
        Least(level + 1, ts);
        PrintLess(Parse(level, ts).tree, level, level + 1);
      }
    } else if level == POSTFIX {
      var r := Parse(PRIMARY, ts);
      Least(PRIMARY, ts);
      PrintLess(r.tree, POSTFIX, PRIMARY);
      LeastPost(r.tree, r.rest);
    } else if Peek(ts) == S(Open) {
      Least(0, ts[1..]);
      PrintLess(Parse(0, ts[1..]).tree, 0, PRIMARY);
    }
  }

  lemma {:induction false} LeastRange(ts: seq<Token>)
    requires Parse(RANGE, ts).Ok?
    ensures var r := Parse(RANGE, ts); Proper(r.tree) && |Print(r.tree, RANGE)| + |r.rest| <= |ts|
    decreases |ts|, 20 - RANGE, -1
  {
    var r := Parse(UNARY, ts);
    Least(UNARY, ts);
    PrintLess(r.tree, RANGE, UNARY);
    if Joins(Peek(r.rest), RANGE) { Least(UNARY, r.rest[1..]); }
  }

  lemma {:induction false} LeastLoop(level: nat, e: Tree, ts: seq<Token>)
    requires LeftAssoc(level) && Proper(e) && Loop(level, e, ts).Ok?
    ensures var r := Loop(level, e, ts); Proper(r.tree) && |Print(r.tree, level)| + |r.rest| <= |Print(e, level)| + |ts|
    decreases |ts|, 0
  {
    if Joins(Peek(ts), level) {
      var r := Parse(level + 1, ts[1..]);
      Least(level + 1, ts[1..]);
      LeastLoop(level, Infix(ts[0].sym, e, r.tree), r.rest);
    }
  }

  lemma {:induction false} LeastPost(e: Tree, ts: seq<Token>)
    requires Proper(e) && PostLoop(e, ts).Ok?
    ensures var r := PostLoop(e, ts);
      Proper(r.tree) && |Print(r.tree, POSTFIX)| + |r.rest| <= |Print(e, POSTFIX)| + |ts|
    decreases |ts|, 0
  {
    if Peek(ts).S? && Postfix(ts[0].sym) {
      LeastPost(Post(ts[0].sym, e), ts[1..]);
    } else if Peek(ts) == S(Open) {
      var r := Arguments(ts[1..]);
      LeastArgs(ts[1..]);
      LeastPost(Call(e, r.args), r.left);
    }
  }

  lemma {:induction false} LeastArgs(ts: seq<Token>)
    requires Arguments(ts).ArgsOk?
    ensures var r := Arguments(ts);
      (forall k :: 0 <= k < |r.args| ==> Proper(r.args[k])) && |PrintArgs(r.args)| + 1 + |r.left| <= |ts|
    decreases |ts|, 30
  {
    if Peek(ts) != S(Close) {
      var r := Parse(0, ts);
      Least(0, ts);
      if Peek(r.rest) == S(Comma) {
        LeastArgs(r.rest[1..]);
        MoreArgs(r.tree, Arguments(r.rest[1..]).args);
      }
    }
  }

  lemma MoreArgs(t: Tree, args: seq<Tree>)
    requires Proper(t) && forall k :: 0 <= k < |args| ==> Proper(args[k])
    ensures |PrintArgs([t] + args)| <= |Print(t, 0)| + 1 + |PrintArgs(args)|
  {
    assert ([t] + args)[1..] == args;
  }

  /** Every tree that is parsed is one the printer prints, and its print is a shortest text that reads as it. */
  lemma PrintShortest(ts: seq<Token>)
    requires Parse(0, ts + [End]).Ok? && Parse(0, ts + [End]).rest == [End]
    ensures var t := Parse(0, ts + [End]).tree;
      Proper(t) && Parse(0, Print(t, 0) + [End]) == Ok(t, [End]) && |Print(t, 0)| <= |ts|
  {
    Least(0, ts + [End]);
    RoundTrip(Parse(0, ts + [End]).tree);
  }

  /** So no printed parenthesis is spare: with any pair dropped, the text does not read as the tree. */
  lemma NoneSpare(t: Tree, i: nat, j: nat)
    requires Proper(t) && i < j < |Print(t, 0)|
    ensures Parse(0, Print(t, 0)[..i] + Print(t, 0)[i + 1..j] + Print(t, 0)[j + 1..] + [End]) != Ok(t, [End])
  {
    var p := Print(t, 0);
    var ts := p[..i] + p[i + 1..j] + p[j + 1..];
    if Parse(0, ts + [End]) == Ok(t, [End]) { PrintShortest(ts); }
  }

  // ------------------------------------------------ the parser

  /** A tree, or the parse error that ends the parse. */
  datatype Outcome = Found(tree: Tree) | Failed

  class Parser {
    const toks: seq<Token>
    var i: nat

    ghost predicate Valid()
      reads this
    {
      i < |toks| && toks[|toks| - 1] == End
    }

    ghost function Rest(): seq<Token>
      reads this
      requires Valid()
    {
      toks[i..]
    }

    constructor (toks: seq<Token>)
      requires toks != [] && toks[|toks| - 1] == End
      ensures Valid() && Rest() == toks
    {
      this.toks, i := toks, 0;
    }

    /** The outcome and the new position are what the reading function says. */
    ghost predicate Reads(s: Result, r: Outcome)
      reads this
    {
      && Valid()
      && (s.Ok? <==> r.Found?)
      && (s.Ok? ==> r.tree == s.tree && Rest() == s.rest)
    }

    method Next() returns (t: Token)
      requires Valid() && toks[i] != End
      modifies this
      ensures Valid() && t == old(toks[i]) && Rest() == old(Rest())[1..]
    {
      t := toks[i];
      i := i + 1;
    }

    method ParseExpr() returns (r: Outcome)
      requires Valid()
      modifies this
      ensures Reads(Parse(0, old(Rest())), r)
      decreases |toks| - i, 40
    {
      r := ParseLevel(0);
    }

    /** The left-grouping rungs: an operand of the next rung, then as many operator and operand pairs as this
        rung's operators introduce. */
    method ParseLevel(level: nat) returns (r: Outcome)
      requires Valid() && LeftAssoc(level)
      modifies this
      ensures Reads(Parse(level, old(Rest())), r)
      decreases |toks| - i, 20 - level, 0
    {
      ghost var start := i;
      ghost var ts := Rest();
      r := ParseAbove(level + 1);
      if r.Failed? {
        return;
      }
      while Joins(toks[i], level)
        invariant Valid() && r.Found? && start < i
        invariant Parse(level, ts) == Loop(level, r.tree, Rest())
        decreases |toks| - i
      {
        ghost var here := Rest();
        var t := Next();
        var rhs := ParseAbove(level + 1);
        if rhs.Failed? {
          return Failed;
        }
        LoopStep(level, r.tree, here, rhs.tree, Rest());
        r := Found(Infix(t.sym, r.tree, rhs.tree));
      }
    }

    /** The method for a rung that is not itself being looped over. */
    method ParseAbove(level: nat) returns (r: Outcome)
      requires Valid() && level <= PRIMARY
      modifies this
      ensures Reads(Parse(level, old(Rest())), r)
      decreases |toks| - i, 20 - level, 1
    {
      if LeftAssoc(level) {
        r := ParseLevel(level);
      } else if level == RANGE {
        r := ParseRange();
      } else if level == UNARY || level == RESULT {
        r := ParsePrefix(level);
      } else if level == POSTFIX {
        r := ParsePostfix();
      } else {
        r := ParsePrimary();
      }
    }

    method ParseRange() returns (r: Outcome)
      requires Valid()
      modifies this
      ensures Reads(Parse(RANGE, old(Rest())), r)
      decreases |toks| - i, 20 - RANGE, 0
    {
      ghost var ts := Rest();
      r := ParseAbove(UNARY);
      if r.Failed? || !Joins(toks[i], RANGE) {
        return;
      }
      var t := Next();
      var rhs := ParseAbove(UNARY);
      return if rhs.Failed? then Failed else Found(Infix(t.sym, r.tree, rhs.tree));
    }

    /** A prefix operator of this rung takes an operand of this rung. */
    method ParsePrefix(level: nat) returns (r: Outcome)
      requires Valid() && (level == UNARY || level == RESULT)
      modifies this
      ensures Reads(Parse(level, old(Rest())), r)
      decreases |toks| - i, 20 - level, 0
    {
      if toks[i].S? && PrefixLevel(toks[i].sym) == level {
        var t := Next();
        r := ParsePrefix(level);
        return if r.Failed? then Failed else Found(Prefix(t.sym, r.tree));
      }
      r := ParseAbove(level + 1);
    }

    method ParsePostfix() returns (r: Outcome)
      requires Valid()
      modifies this
      ensures Reads(Parse(POSTFIX, old(Rest())), r)
      decreases |toks| - i, 20 - POSTFIX, 0
    {
      ghost var start := i;
      ghost var ts := Rest();
      r := ParseAbove(PRIMARY);
      if r.Failed? {
        return;
      }
      while toks[i].S? && (Postfix(toks[i].sym) || toks[i].sym == Open)
        invariant Valid() && r.Found? && start < i
        invariant Parse(POSTFIX, ts) == PostLoop(r.tree, Rest())
        decreases |toks| - i
      {
        ghost var here := Rest();
        var t := Next();
        if Postfix(t.sym) {
          PostStep(r.tree, here);
          r := Found(Post(t.sym, r.tree));
        } else {
          var ok, args := ParseArguments();
          if !ok {
            return Failed;
          }
          CallStep(r.tree, here, args, Rest());
          r := Found(Call(r.tree, args));
        }
      }
    }

    method ParseArguments() returns (ok: bool, args: seq<Tree>)
      requires Valid()
      modifies this
      ensures Valid()
      ensures var s := Arguments(old(Rest()));
        (ok <==> s.ArgsOk?) && (ok ==> args == s.args && Rest() == s.left)
      decreases |toks| - i, 50
    {
      ghost var ts := Rest();
      args := [];
      while toks[i] != S(Close)
        invariant Valid() && old(i) <= i
        invariant With(args, Arguments(Rest())) == Arguments(ts)
        decreases |toks| - i
      {
        ghost var here := Rest();
        var r := ParseExpr();
        if r.Failed? {
          return false, [];
        }
        ghost var before := args;
        args := args + [r.tree];
        if toks[i] != S(Comma) {
          assert Arguments(here) == if Peek(Rest()) == S(Close) then ArgsOk([r.tree], Rest()[1..]) else ArgsErr;
          break;
        }
        ArgumentsStep(here, r.tree, Rest());
        WithMore(before, r.tree, Arguments(Rest()[1..]));
        var _ := Next();
      }
      if toks[i] != S(Close) {
        return false, [];
      }
      var _ := Next();
      return true, args;
    }

    method ParsePrimary() returns (r: Outcome)
      requires Valid()
      modifies this
      ensures Reads(Parse(PRIMARY, old(Rest())), r)
      decreases |toks| - i, 20 - PRIMARY, 0
    {
      if toks[i].Atom? {
        var t := Next();
        return Found(Leaf(t.name));
      }
      if toks[i] != S(Open) {
        return Failed;
      }
      var _ := Next();
      r := ParseExpr();
      if r.Failed? || toks[i] != S(Close) {
        return Failed;
      }
      var _ := Next();
    }
  }

  /** Arguments already read, in front of the rest of the list. */
  ghost function With(args: seq<Tree>, r: ArgsResult): ArgsResult {
    if r.ArgsOk? then ArgsOk(args + r.args, r.left) else ArgsErr
  }

  lemma WithMore(args: seq<Tree>, t: Tree, r: ArgsResult)
    ensures With(args, With([t], r)) == With(args + [t], r)
  {
    if r.ArgsOk? {
      assert args + ([t] + r.args) == (args + [t]) + r.args;
    }
  }

  lemma ArgumentsStep(ts: seq<Token>, t: Tree, rest: seq<Token>)
    requires Peek(ts) != S(Close) && Parse(0, ts) == Ok(t, rest) && Peek(rest) == S(Comma)
    ensures Arguments(ts) == With([t], Arguments(rest[1..]))
  {
  }
}
