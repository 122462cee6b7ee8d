/** When a leave's operand cannot run the defers a second time: nothing in it relays, or no defer is open. */
module Leaves {
  import opened Words
  import opened Source
  import opened Checked
  import opened SimFlow

  /** `open`: some enclosing scope has registered a defer. */
  predicate PromptLeave(e: Expr, open: bool) {
    open ==> NoRelay(e)
  }

  predicate PromptStmt(st: Stmt, open: bool)
    decreases SSize(st), 0
  {
    match st
    case Block(b) => PromptList(b, open)
    case If(_, t, els) => PromptList(t, open) && (els.Some? ==> PromptStmt(els.value, open))
    case While(_, b) => PromptList(b, open)
    case Pick(_, arms) => PromptArms(arms, open)
    case Pass(Some(e)) => PromptLeave(e, open)
    case Fail(e) => PromptLeave(e, open)
    case Exit(e) => PromptLeave(e, open)
    case Defer(b) => PromptList(b, true)
    case _ => true
  }

  predicate PromptList(ss: seq<Stmt>, open: bool)
    decreases BSize(ss), 1
  {
    ss == [] || (PromptStmt(ss[0], open) && PromptList(ss[1..], open || ss[0].Defer?))
  }

  predicate PromptArms(arms: seq<Arm>, open: bool)
    decreases ASize(arms), 1
  {
    arms == [] || (PromptList(arms[0].body, open) && PromptArms(arms[1..], open))
  }

  /** No leaving statement's operand relays where a defer is open. */
  predicate Prompt(f: Func) {
    PromptList(f.body, false)
  }

  /** The operand a leave evaluates last. */
  function Operand(op: LeaveOp): Option<Expr> {
    match op
    case OkOp(r) => r
    case FailOp(e) => Some(e)
    case ExitOp(e) => Some(e)
    case RelayOp(_) => None
  }

  /** A leave whose operand does not relay, or that passed no defer. */
  predicate Early(op: LeaveOp, left: Frames, open: bool) {
    Operand(op).None? || NoRelay(Operand(op).value) || (!open && AllEmpty(left))
  }

  predicate EarlyOut(out: SO, open: bool) {
    out.Leaving? ==> Early(out.op, out.left, open)
  }

  lemma {:induction false} PromptExec(o: Oracle, g: Sigs, st: Stmt, open: bool, env: Env, tr: seq<Event>, fuel: nat)
    requires PromptStmt(st, open)
    ensures EarlyOut(Exec(o, g, st, env, tr, fuel), open)
    decreases fuel, SSize(st), 0
  {
    match st {
      case Block(b) => PromptBlock(o, g, b, open, env, tr, fuel);
      case If(e, t, els) =>
        var r := Eval(o, g, e, env, tr);
        if r.EV? {
          PromptBlock(o, g, t, open, env, r.tr, fuel);
          if els.Some? { PromptExec(o, g, els.value, open, env, r.tr, fuel); }
        }
      case While(e, b) =>
        var r := Eval(o, g, e, env, tr);
        if fuel > 0 && r.EV? {
          PromptBlock(o, g, b, open, env, r.tr, fuel - 1);
          var body := ExecBlock(o, g, b, env, r.tr, fuel - 1);
          if body.Normal? || body.Continued? { PromptExec(o, g, st, open, body.env, body.tr, fuel - 1); }
        }
      case Pick(e, arms) =>
        var r := Eval(o, g, e, env, tr);
        if r.EV? {
          var i := ChosenArm(arms, r.val.ty, r.val.v);
          if i.Some? {
            PromptArm(arms, i.value, open);
            PromptBlock(o, g, ArmAt(arms, i.value), open, env, r.tr, fuel);
          }
        }
      case _ =>
    }
  }

  lemma {:induction false} PromptArm(arms: seq<Arm>, i: nat, open: bool)
    requires i < |arms| && PromptArms(arms, open)
    ensures PromptList(ArmAt(arms, i), open)
  {
    if i > 0 { PromptArm(arms[1..], i - 1, open); }
  }

  lemma {:induction false} PromptStmts(o: Oracle, g: Sigs, ss: seq<Stmt>, open: bool, env: Env, tr: seq<Event>,
          fuel: nat)
    requires PromptList(ss, open)
    ensures var r := ExecStmts(o, g, ss, env, tr, fuel); EarlyOut(r.out, open || DefersOf(ss[..r.ran]) != [])
    decreases fuel, BSize(ss), 1
  {
    if ss != [] {
      var out := Exec(o, g, ss[0], env, tr, fuel);
      PromptExec(o, g, ss[0], open, env, tr, fuel);
      if out.Normal? {
        var r := ExecStmts(o, g, ss[1..], out.env, out.tr, fuel);
        PromptStmts(o, g, ss[1..], open || ss[0].Defer?, out.env, out.tr, fuel);
        assert ss[..r.ran + 1][1..] == ss[1..][..r.ran];
      } else {
        assert ss[..0] == [];
      }
    }
  }

  lemma {:induction false} PromptBlock(o: Oracle, g: Sigs, ss: seq<Stmt>, open: bool, env: Env, tr: seq<Event>,
          fuel: nat)
    requires PromptList(ss, open)
    ensures EarlyOut(ExecBlock(o, g, ss, env, tr, fuel), open)
    decreases fuel, BSize(ss) + 1, 0
  {
    var r := ExecStmts(o, g, ss, env, tr, fuel);
    PromptStmts(o, g, ss, open, env, tr, fuel);
    if !r.out.Halted? && !r.out.OutOfFuel? {
      var d := DefersOf(ss[..r.ran]);
      DefersSize(ss[..r.ran]);
      PrefixSize(ss, r.ran);
      PromptDefers(ss, open, r.ran);
      PromptFrame(o, g, d, r.out.env, r.out.tr, fuel);
      EarlyAfter(r.out, d, RunDefers(o, g, d, r.out.env, r.out.tr, fuel), env.Keys, open);
    }
  }

  lemma EarlyAfter(out: SO, d: seq<seq<Stmt>>, ran: SO, names: set<string>, open: bool)
    requires !out.Halted? && !out.OutOfFuel? && EarlyOut(out, open || d != []) && EarlyOut(ran, true)
    ensures EarlyOut(AfterDefers(out, d, ran, names), open)
  {
    if ran.Normal? && out.Leaving? && AllEmpty(out.left) && d == [] {
      assert AllEmpty([d] + out.left);
    }
  }

  predicate PromptBodies(frame: seq<seq<Stmt>>) {
    forall i :: 0 <= i < |frame| ==> PromptList(frame[i], true)
  }

  lemma {:induction false} PromptDefers(ss: seq<Stmt>, open: bool, n: nat)
    requires PromptList(ss, open) && n <= |ss|
    ensures PromptBodies(DefersOf(ss[..n]))
  {
    if n > 0 {
      assert ss[..n][1..] == ss[1..][..n - 1];
      PromptDefers(ss[1..], open || ss[0].Defer?, n - 1);
    }
  }

  lemma {:induction false} PromptFrame(o: Oracle, g: Sigs, frame: seq<seq<Stmt>>, env: Env, tr: seq<Event>, fuel: nat)
    requires PromptBodies(frame)
    ensures EarlyOut(RunDefers(o, g, frame, env, tr, fuel), true)
    decreases fuel, FSize(frame), 0
  {
    if frame != [] {
      var k := |frame| - 1;
      PromptBlock(o, g, frame[k], true, env, tr, fuel);
      var out := ExecBlock(o, g, frame[k], env, tr, fuel);
      if out.Normal? { PromptFrame(o, g, frame[..k], out.env, out.tr, fuel); }
    }
  }

  lemma {:induction false} EmptyFrames(o: Oracle, g: Sigs, frames: Frames, env: Env, tr: seq<Event>, fuel: nat)
    requires AllEmpty(frames)
    ensures RunFrames(o, g, frames, env, tr, fuel) == Normal(env, tr)
    decreases |frames|
  {
    if frames != [] {
      assert frames[|frames| - 1] == [];
      EmptyFrames(o, g, frames[..|frames| - 1], env, tr, fuel);
    }
  }

  /** The emitted function is then the source function. */
  lemma PromptRuns(o: Oracle, g: Sigs, f: Func, args: seq<nat>, fuel: nat, late: nat)
    requires Prompt(f) && |args| == |f.params|
    ensures RunLowered(o, g, f, args, fuel, late) == RunFunc(o, g, f, args, fuel)
  {
    var out := ExecBlock(o, g, f.body, Bind(f.params, args), [], fuel);
    PromptBlock(o, g, f.body, false, Bind(f.params, args), [], fuel);
    if out.Leaving? && Operand(out.op).Some? {
      var e := Operand(out.op).value;
      if NoRelay(e) { NoRelayEval(o, g, e, out.env, out.tr); }
      var x := Eval(o, g, e, out.env, out.tr);
      if x.ERelay? { EmptyFrames(o, g, out.left, out.env, x.tr, late); }
    }
  }
}
