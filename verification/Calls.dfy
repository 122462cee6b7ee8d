/** The calls of a run, ended or not: at every step the machine has made a beginning of the source's calls. */
module Calls {
  import opened Words
  import opened Source
  import opened Target
  import opened Lowering
  import opened Checked
  import opened SimFunc
  import opened Leaves
  import opened Preservation

  function HaltCalls(h: Halt): seq<Event> {
    match h
    case Exited(_, tr) => tr
    case Undefined(tr) => tr
  }

  /** The calls a function has made when it ended, or ran out of fuel. */
  function CallsOf(out: FO): seq<Event> {
    match out
    case Finished(_, tr) => tr
    case FHalted(h) => HaltCalls(h)
    case FOutOfFuel(tr) => tr
  }

  /** The calls the machine has made; a stuck one has no account of them. */
  function CallsBy(m: MR): Option<seq<Event>> {
    match m
    case Run(c) => Some(c.tr)
    case Done(Returned(_, tr)) => Some(tr)
    case Done(Ended(h)) => Some(HaltCalls(h))
    case Done(Stuck) => None
  }

  predicate Begins(a: Option<seq<Event>>, b: Option<seq<Event>>) {
    a.Some? && b.Some? && a.value <= b.value
  }

  /** One step takes no call back. */
  lemma StepCalls(w: World, c: Cfg)
    ensures CallsBy(Step(w, c)).Some? ==> c.tr <= CallsBy(Step(w, c)).value
  {}

  lemma {:induction false} StepsCalls(w: World, c: Cfg, k: nat)
    ensures CallsBy(Steps(Stepper(w), c, k)).Some? ==> c.tr <= CallsBy(Steps(Stepper(w), c, k)).value
    decreases k
  {
    if k > 0 {
      StepCalls(w, c);
      match Step(w, c) {
        case Run(c1) => StepsCalls(w, c1, k - 1);
        case Done(_) =>
      }
    }
  }

  lemma LaterCalls(w: World, c: Cfg, k: nat, k1: nat)
    requires CallsBy(Steps(Stepper(w), c, k1)).Some? && (k <= k1 || Steps(Stepper(w), c, k1).Done?)
    ensures Begins(CallsBy(Steps(Stepper(w), c, k)), CallsBy(Steps(Stepper(w), c, k1)))
  {
    if k > k1 {
      DoneStays(Stepper(w), c, k1, k);
    } else if Steps(Stepper(w), c, k).Done? {
      DoneStays(Stepper(w), c, k, k1);
    } else {
      MoreCalls(w, c, k, Steps(Stepper(w), c, k).c, k1 - k);
    }
  }

  lemma MoreCalls(w: World, c: Cfg, k: nat, c1: Cfg, more: nat)
    requires Steps(Stepper(w), c, k) == Run(c1) && CallsBy(Steps(Stepper(w), c, k + more)).Some?
    ensures c1.tr <= CallsBy(Steps(Stepper(w), c, k + more)).value
  {
    StepsAdd(Stepper(w), c, k, c1, more);
    StepsCalls(w, c1, more);
  }

  /** Ended or not: whatever the source has called by some fuel, the machine has called after some steps; and by
      any step the machine has called a beginning of what the source calls, given that much fuel. */
  ghost predicate SameCalls(o: Oracle, args: seq<nat>, f: Func, g: Sigs, lbl: nat, calls: (nat, nat) -> seq<Event>) {
    && (forall fuel: nat, late: nat :: Made(o, args, f, g, lbl, calls(fuel, late)))
    && (forall k: nat :: Begins(CallsBy(Machine(o, args, f, g, lbl, k)), Some(calls(k, k))))
  }

  ghost predicate Made(o: Oracle, args: seq<nat>, f: Func, g: Sigs, lbl: nat, tr: seq<Event>) {
    exists k: nat :: CallsBy(Machine(o, args, f, g, lbl, k)) == Some(tr)
  }

  /** The calls of the function as emitted, and of the source function, by their fuel. */
  function LoweredCalls(o: Oracle, g: Sigs, f: Func, args: seq<nat>): (nat, nat) -> seq<Event>
    requires |args| == |f.params|
  {
    (fuel: nat, late: nat) => CallsOf(RunLowered(o, g, f, args, fuel, late))
  }

  function SourceCalls(o: Oracle, g: Sigs, f: Func, args: seq<nat>): (nat, nat) -> seq<Event>
    requires |args| == |f.params|
  {
    (fuel: nat, late: nat) => CallsOf(RunFunc(o, g, f, args, fuel))
  }

  lemma CallsAlike(o: Oracle, g: Sigs, f: Func, args: seq<nat>, lbl: nat)
    requires OkFunc(f, g) && |args| == |f.params|
    ensures SameCalls(o, args, f, g, lbl, LoweredCalls(o, g, f, args))
  {
    forall fuel: nat, late: nat
      ensures Made(o, args, f, g, lbl, CallsOf(RunLowered(o, g, f, args, fuel, late)))
    {
      var k := CallsAt(o, g, f, args, lbl, fuel, late);
    }
    forall k: nat
      ensures Begins(CallsBy(Machine(o, args, f, g, lbl, k)), Some(CallsOf(RunLowered(o, g, f, args, k, k))))
    {
      var k1 := CallsAt(o, g, f, args, lbl, k, k);
      LaterCalls(World(o, args, TextOf(CFunc(f, g, lbl))), Cfg(1, map[], map[], []), k, k1);
    }
  }

  lemma CallsAt(o: Oracle, g: Sigs, f: Func, args: seq<nat>, lbl: nat, fuel: nat, late: nat) returns (k: nat)
    requires OkFunc(f, g) && |args| == |f.params|
    ensures CallsBy(Machine(o, args, f, g, lbl, k)) == Some(CallsOf(RunLowered(o, g, f, args, fuel, late)))
    ensures Machine(o, args, f, g, lbl, k).Done? || k >= fuel || k >= late
  {
    k := FunctionRun(o, g, f, args, lbl, fuel, late);
  }

  /** The same of the source function itself, where no leave's operand relays past an open defer. */
  lemma PromptCalls(o: Oracle, g: Sigs, f: Func, args: seq<nat>, lbl: nat)
    requires OkFunc(f, g) && Prompt(f) && |args| == |f.params|
    ensures SameCalls(o, args, f, g, lbl, SourceCalls(o, g, f, args))
  {
    forall fuel, late
      ensures RunLowered(o, g, f, args, fuel, late) == RunFunc(o, g, f, args, fuel)
    {
      PromptRuns(o, g, f, args, fuel, late);
    }
    CallsAlike(o, g, f, args, lbl);
    var calls := LoweredCalls(o, g, f, args);
    forall fuel: nat
      ensures Made(o, args, f, g, lbl, CallsOf(RunFunc(o, g, f, args, fuel)))
    {
      assert Made(o, args, f, g, lbl, calls(fuel, 0));
    }
    forall k: nat
      ensures Begins(CallsBy(Machine(o, args, f, g, lbl, k)), Some(CallsOf(RunFunc(o, g, f, args, k))))
    {
      assert Begins(CallsBy(Machine(o, args, f, g, lbl, k)), Some(calls(k, k)));
    }
  }
}
