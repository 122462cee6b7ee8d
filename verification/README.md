# Proofs about the Nitpick bootstrap

The Nitpick repository is bootstrapped by a small generator (`bootstrap/generator`) and guarded by checkers
(`bootstrap/harness`) and a driver protocol (`sdk/npkdrv.h`). This project models the parts of them that carry
an argument, in the form the code has, and proves what the code is for.

**The seed's lowering.** `emit.py` turns structured statements into labelled blocks of LLVM text. `Source` gives
the statements a meaning of their own: expressions, `if`, `while`, `pick`, `defer`, `relay`, `?!`, `?|`, `&&`,
`||`, `pass`, `fail`, `exit` and traps, with calls answered by an oracle that sees the whole history of calls.
`Target` is a machine for the emitted lines. `Lowering` says what each construct appends; `Emission.Emitter` is
the emitter itself, a class that appends to `out`, inserts allocas at a cursor, counts temporaries and labels,
and keeps the stacks of locals, defers and loops, each method proved equal to its lowering function.
`Checked.OkFunc` says which functions the emitter is right for, less than `check.py` lets through; such a
function is called regular here. It is well typed and scoped; declares no name over a visible one; initialises
its declarations; has no casts; its defer bodies do not leave; no `break` or `continue` passes a defer.

The results: for every regular function, oracle and argument list the machine ends if and only if the function
as emitted does (`Preservation.PreservedLowered`), with the same answer and the same sequence of calls, where a
relay in the operand of a leave runs the open defers once more (`Source.RunLowered`). It is the source
function's own answer exactly when such a second run ends and calls nothing (`Preservation.AgreesExactly`), and
always when no operand of a leave relays past an open defer (`Preservation.Preserved`); `Compiled.EmitMeant`
says it of what the emitter object has written. Runs that do not end are held to their calls: at every step the
machine has made a beginning of the source's (`Calls.CallsAlike`). `Words` has the modular arithmetic, wrapping
and truncation included, and `Ranges` what the widths mean in numerals. `Layout`, `Blocks` and `Slots` prove the
shape of the text, `Shadowing` what a defer body lowers to at an exit, and `Limits` has the inputs on which the
code passes its limits.

**The explicit-state model checker.** `Models` has the transition systems (ranged integer vectors, guarded
multi-assignments), the runs and the evaluator with its 2^31 operand bound, and `Evaluation` what expressions,
steps and controls come to. `Explorer.Search` has the three searches of `explore_model` as loops over maps and
queues; `Verdict` has the initial states, the bad predicates, the controls and the verdict about all runs.

**The control-flow analyses.** `Dominance` has the in-place dominator iteration, the greatest-fixpoint coverage
and `held_at`; `StackBound` the depth-first cut of back edges, the memoised deepest chain and the reserve;
`StaleReads` the worklist over a resumed coroutine's blocks.

**Decimal-to-float rounding.** `Rounding` and `Decimals` have `ref`, `dyadic` and `nudge` over exact integers,
and round-to-nearest as IEEE 754-2019 defines it (section 4.3.1; encodings, section 3.4), for any precision and
exponent range; `Exponents` what the point and the exponent of a text mean.

**The driver ring.** `RingProtocol` interleaves the atomic steps of a conforming Bridge and a driver;
`RingDriver` has the header checks, the slot arithmetic and the exact reads, byte by byte; `Wire` has the layout
of packets, records and header in numerals; `RingRuns` what submissions and requests come to, step by step;
`RingLink` ties one call of the driver on the bytes to its steps in the protocol.

**Smaller parts.** `Grammar` is the expression parser with its level table, and the printer that is its inverse,
and `Precedence` what the levels mean; `Renaming` the comparison of two emissions up to type numbers, and
`Texts` the same on the flat texts.

Where the code differs from what it is said to do:

- A defer body that ends in a trap, run before a leaving statement, leaves lines after a terminator:
  `Blocks.MisplacedEnds` has one such function, and `Blocks.BlocksEnd` the exact condition.
- `pass (relay f())` with a defer open runs the defers twice on the error path, because the frames are
  still in place when the operand is lowered: `Limits.TwiceRuns` has one such function, and
  `Preservation.AgreesExactly` the exact condition.
- A defer body is lowered with the locals of the exit, so a shadowing declaration changes it:
  `Limits.ShadowRuns` has a function that answers 1 where it means 5 (`Limits.ShadowMeans`), and
  `Shadowing.DeferKeeps` the exact condition.
- A `break` past a defer does not run it, as the source's own comment says: `Limits.SkipRuns` and
  `Limits.SkipMeans` have a function for every defer body, right exactly when the body ends in silence.
- `e ?| d` on a Result of NIL never evaluates `d`: `Limits.FallbackRuns` has the input `f() ?| drop g()`, and
  `Limits.FallbackSkipped` the exact condition. The meaning in `Source` is the emitter's here.
- The stack bound refuses some floors whose every cycle enters the trap route: `StackBound.LegalRefused` has
  one, and `StackBound.Measure` says exactly which.
- The bounded set of `explore_model` always has layer 1, so depth 0 is read as 1: `Explorer.ExactReport`
  says so for every depth, `Verdict.DepthZero` has a model it misreads, and `Verdict.DepthRead` the exact
  condition.
- Pinned variables are not checked against their ranges: `Verdict.PinOutside` has a model that starts out of
  range, and `Verdict.PinsInRange` the exact condition.
- The dominator sets are exact for the ways from the entry or from a block without predecessors; an
  unreached predecessor can make them smaller, as in `Dominance.UnreachedShrinks`. A block's set is right if and
  only if no way to it avoids the entry, which the set itself shows: `Dominance.DominatorsExactly`.
- `held_at` answers false for an access in a block whose last line only begins with `unreachable`, unless an
  unlock follows in that block: the last conjunct of `Dominance.HeldAt`, with a block in `Dominance.TaggedEnd`.
- The comparison of emissions can take a text that already holds the marker `#` for a renumbered one:
  `Texts.MarkerKept` has a pair, and `Texts.TextsDecide` the condition under which the texts tell.

## Model

| member | source | states |
|---|---|---|
| Preservation.Preserved | bootstrap/generator/emit.py:211-445 | For every regular function with no relay in a leave's operand past an open defer, every oracle, arguments and starting label number: the emitted text's run ends exactly if the source run does, and then with the same value, error code or trap and the same calls |
| Preservation.PreservedLowered | bootstrap/generator/emit.py:211-445 | The same for every regular function, when a relay in a leave's operand is taken to run the defers of the open frames once more before it returns its code |
| Preservation.AgreesExactly | bootstrap/generator/emit.py:330-346 | The emitted function gives the source's answer if and only if no operand of the leave taken relays, or the defers of the frames left, run a second time, end normally and call nothing |
| Preservation.FunctionRun | bootstrap/generator/emit.py:211-251 | With counts: the machine reaches the answer; or it runs at least as long as a source, or a second run of defers, that is still going, to a state with the same calls made |
| Calls.CallsAlike | bootstrap/generator/emit.py:211-445 | Ended or not: what a regular function as emitted has called by any fuel, the machine has called after some steps, and by any step the machine has called a beginning of that |
| Calls.PromptCalls | bootstrap/generator/emit.py:211-445 | The same of the source function, with no relay in a leave's operand past an open defer |
| Compiled.EmitMeant | bootstrap/generator/emit.py:211-251 | What the emitter object appends for such a function is its header, a text whose every run is the function's, and the closing lines |
| Leaves.PromptRuns | bootstrap/generator/emit.py:330-346 | With no operand of a leave relaying past an open defer, the function as emitted is the source function, whatever the fuel |
| Ranges.RunInRange | bootstrap/generator/ntypes.py:23-39 | Whatever a regular function is called with and whatever its calls answer, it answers a value between the two numerals of its type (int8 -128 and 127, up to uint64), or a 32-bit code |
| Ranges.EvalInRange | bootstrap/generator/emit.py:871-881 | Where the variables hold values of their types, every typed expression has a value between the numerals of its own type, and a relayed code is 32-bit |
| Ranges.ExecInRange | bootstrap/generator/emit.py:280-390 | Every statement of a regular function keeps the variables so at every way it can end, and a leave answers a value of the function's type |
| Ranges.ParamSlots | bootstrap/generator/emit.py:230-235 | The slots of the parameters are 8, 16, 32 and 64 bits wide as their types are, in order, and each takes its parameter |
| Ranges.DeclSlot | bootstrap/generator/emit.py:284-290 | So is a declaration's slot, and the name stands for it afterwards |
| Emission.Emitter.EmitFunc | bootstrap/generator/emit.py:211-251 | The method that emits a function appends exactly the text of the lowering: header, entry label, allocas, body, fall-off return, close |
| Emission.Emitter.EmitParams | bootstrap/generator/emit.py:230-235 | Each parameter gets a hoisted slot and a store, and the scope maps its name to the slot |
| Emission.Emitter.EmitStmt | bootstrap/generator/emit.py:280-390 | One statement appends what the lowering says, keeps the text before it, and leaves the scope of the statement after it |
| Emission.Emitter.EmitBody | bootstrap/generator/emit.py:255-266 | A block pushes a defer frame, stops at a terminator, runs the frame's defers only when still open, and restores the locals |
| Emission.Emitter.EmitList | bootstrap/generator/emit.py:258-261 | The statements of a block in order, none after one that ended it |
| Emission.Emitter.CloseScope | bootstrap/generator/emit.py:262-264 | The frame is popped before its defers are run, and they are run only if the block is open |
| Emission.Emitter.RunDefers | bootstrap/generator/emit.py:268-275 | The defers of the given frames, innermost frame first and latest first within one |
| Emission.Emitter.RunAllDefers | bootstrap/generator/emit.py:277-278 | The defers of every open frame, with the frames still in place |
| Emission.UnwindIs | bootstrap/generator/emit.py:330-341 | Running all frames and then returning is the lowering's unwinding, frame by frame |
| Emission.Emitter.EmitIf | bootstrap/generator/emit.py:392-405 | Labels, test, branches and joins of an `if`, with or without `else` |
| Emission.Emitter.EmitWhile | bootstrap/generator/emit.py:314-325 | Head, test, body with its loop pushed and popped, and the jump back |
| Emission.Emitter.EmitPick | bootstrap/generator/emit.py:407-445 | The switch, the literal arms in order, then the last wildcard's arm |
| Emission.Emitter.EmitSwitch | bootstrap/generator/emit.py:421-434 | One label an arm in order; the cases are the literal arms', the default the last wildcard's or the end |
| Emission.Emitter.EmitArms | bootstrap/generator/emit.py:436-442 | Every literal arm, each ended by a jump to the common end |
| Emission.Emitter.EmitExpr | bootstrap/generator/emit.py:681-812 | One expression appends its lowering and answers its operand; scope and earlier text are kept |
| Emission.Emitter.EmitLogic | bootstrap/generator/emit.py:831-852 | Short circuit through a slot two paths write |
| Emission.Emitter.EmitCall | bootstrap/generator/emit.py:1028-1036 | Arguments left to right, then the call |
| Emission.Emitter.EmitResult | bootstrap/generator/emit.py:941-978 | `raw`, `drop` and `relay` on a Result and on a plain value |
| Emission.Emitter.EmitRelay | bootstrap/generator/emit.py:961-976 | The error path runs every open defer and returns the same code; the other path goes on |
| Emission.Emitter.EmitEmphatic | bootstrap/generator/emit.py:883-915 | `?!`: the error path traps with the caller's code and runs no defer |
| Emission.Emitter.EmitSafeUnwrap | bootstrap/generator/emit.py:883-939 | `?\|`: the fallback is lowered on the error path only, and not at all for a Result of NIL |
| Emission.Emitter.EmitReturnOk | bootstrap/generator/emit.py:485-514 | The three forms of a return: bare, Result of NIL, Result of a value |
| Emission.Emitter.AllocaSlot | bootstrap/generator/emit.py:137-147 | An alloca goes in at the cursor, after earlier ones, and nothing else moves |
| Emission.OkFine | bootstrap/generator/emit.py:255-278 | A regular function never makes the emitter re-enter a defer frame it is running, so the emitter's methods end on it |
| SimExpr.SimExpr | bootstrap/generator/emit.py:681-978 | From any state the text is placed in, the machine follows an expression's evaluation: to its value, to the trap, or to the end of a relay's error path |
| SimExpr.SimLogic | bootstrap/generator/emit.py:831-852 | `&&` and `\|\|` evaluate the right side exactly when the left one asks for it |
| SimExpr.SimRelay | bootstrap/generator/emit.py:961-976 | On an error code the machine stands at the unwinding with that code in its register; otherwise it has the value |
| SimExpr.SimEmph | bootstrap/generator/emit.py:901-915 | On an error the machine ends by calling failsafe with the caller's code and exiting with its answer |
| SimExpr.SimUnwrap | bootstrap/generator/emit.py:917-939 | Value or lazily computed default, through the slot |
| SimStmt.SimStmt | bootstrap/generator/emit.py:280-390 | The machine follows every statement: normal end, jump to the loop's labels, unwinding, or a halt, with the variables in their slots |
| SimStmt.SimBlock | bootstrap/generator/emit.py:255-266 | A block run as a scope: the defers registered in it run once, latest first, at its normal end, and stay pending at a leave |
| SimStmt.SimDefers | bootstrap/generator/emit.py:268-275 | A frame's defers, latest first, each as a block in the scope of the exit |
| SimStmt.SimLoop | bootstrap/generator/emit.py:314-325 | Every trip of a `while`, by induction on the source's fuel |
| SimStmt.SimPick | bootstrap/generator/emit.py:407-445 | The first literal arm that matches, else the last wildcard, else nothing |
| SimFunc.LeaveRun | bootstrap/generator/emit.py:330-346 | After the defers, the operand is evaluated and the return hands its value or error code to the caller; if it relays, the open defers run again and then its code is returned |
| SimFunc.RetErrRun | bootstrap/generator/emit.py:516-535 | The lines of an error return, from any state that holds the code, end the function with that code in its own form of Result |
| Words.ArithAgrees | bootstrap/generator/emit.py:871-881 | The machine instruction on patterns gives the source's wrapped value, for every integer type and operator, and is undefined exactly where the source is |
| Words.CompareAgrees | bootstrap/generator/emit.py:858-867 | The chosen comparison orders patterns as the values are ordered |
| Words.DivInRange | bootstrap/generator/emit.py:874-876 | Truncating quotient and remainder stay in the type, and are the plain ones for unsigned types |
| Words.BitwiseIs | bootstrap/generator/emit.py:871-881 | Bit by bit, `&` has the bits both have, `\|` those either has, `^` those exactly one has |
| Layout.WellLaidOut | bootstrap/generator/emit.py:127-156 | For every function, checked or not: each label is defined once, every branch finds its label, and the allocas lead, one slot each in creation order |
| Slots.SlotsMade | bootstrap/generator/emit.py:137-147 | In the text of any function that declares its names before it uses them, the slot of every load and store is one an alloca earlier in the text made |
| Slots.RegularSlots | bootstrap/generator/emit.py:137-147 | So for every regular function |
| Layout.StmtGrows | bootstrap/generator/emit.py:280-390 | Each statement defines only labels numbered during it, each once, and branches only to those or to the open loop's |
| Layout.ExprGrows | bootstrap/generator/emit.py:681-978 | The same for every expression |
| Blocks.BlocksEnd | bootstrap/generator/emit.py:149-156 | Every block of a regular function ends in one terminator with nothing after it if and only if no statement leaves, and no expression relays, past a defer body that itself ends its block |
| Blocks.ScanMeans | bootstrap/generator/emit.py:149-156 | What that scan says of two neighbouring lines: a label stands exactly after a terminator |
| Blocks.StmtMoves | bootstrap/generator/emit.py:280-390 | For each statement, sound or not: the flag `terminated` tells the truth, or a line is misplaced |
| Blocks.LeaveMoves | bootstrap/generator/emit.py:330-356 | A leave misplaces a line exactly when an open defer body ends the block, unless it emits nothing |
| Blocks.MisplacedEnds | bootstrap/generator/emit.py:268-275 | A regular function whose return lands after the trap of its defer body |
| Shadowing.DeferKeeps | bootstrap/generator/emit.py:268-275 | A defer body typed in its own scope and in an exit's lowers at the exit to the lines of its own scope if and only if every name it mentions is the same local in both |
| Limits.TwiceRuns | bootstrap/generator/emit.py:330-333 | `{ defer { drop g(); } pass (relay h()); }`, when h fails: by the meaning of `defer` g is called once, and the emitted text calls it twice |
| Limits.ShadowRuns | bootstrap/generator/emit.py:268-275 | `{ int x = 0; defer { x = 1; } { int n = 5; pass n; } }` answers 5 for every name of the inner variable but `x`, and then 1 |
| Limits.ShadowMeans | bootstrap/generator/emit.py:268-275 | By the meaning of its names that function answers 5 |
| Limits.ShadowKeeps | bootstrap/generator/check.py:356-369 | The defer body of that function is lowered at the `pass` as where it stands if and only if the inner name is another |
| Limits.SkipRuns | bootstrap/generator/emit.py:370-378 | `{ while (true) { defer b; break; } }` as emitted ends in five steps and calls nothing, whatever `b` is |
| Limits.SkipMeans | bootstrap/generator/emit.py:370-378 | That is the source function's answer if and only if the run of `b` ends normally and calls nothing |
| Limits.FallbackRuns | bootstrap/generator/emit.py:917-920 | `{ f() ?\| drop g(); }`, when f fails: the emitted text calls f alone, and as the operator reads it would call g too |
| Limits.FallbackSkipped | bootstrap/generator/emit.py:917-920 | What the emitter makes of `e ?\| d` is what it reads as if and only if there is no error of a Result of NIL, or the fallback answers NIL and calls nothing |
| Models.RunMore | bootstrap/harness/floor.py:1034-1041 | A run one real step longer, and its count of thread changes |
| Evaluation.LessIs | bootstrap/harness/floor.py:1133-1139 | A `<` chain is true exactly when every two neighbours are so ordered |
| Evaluation.LessEqIs | bootstrap/harness/floor.py:1133-1139 | A `<=` chain likewise |
| Evaluation.GreaterIs | bootstrap/harness/floor.py:1133-1139 | A `>` chain likewise |
| Evaluation.GreaterEqIs | bootstrap/harness/floor.py:1133-1139 | A `>=` chain likewise |
| Evaluation.EqualIs | bootstrap/harness/floor.py:1122-1126 | `=` is true exactly when every operand has the first one's value |
| Evaluation.DistinctIs | bootstrap/harness/floor.py:1127-1132 | `distinct` is true exactly when no two operands have one value |
| Evaluation.ChainFails | bootstrap/harness/floor.py:1133-1139 | With an operand that has no value, a chain is false if two neighbours in front of it are out of order, and has no value otherwise |
| Evaluation.EqualFails | bootstrap/harness/floor.py:1122-1126 | `=` likewise |
| Evaluation.DistinctFails | bootstrap/harness/floor.py:1127-1132 | `distinct` likewise: every operand is compared with the first before any other two |
| Evaluation.ConnectivesAre | bootstrap/harness/floor.py:1112-1121 | `and`, `or`, `not`, `=>` and `ite` by the truth of their parts |
| Evaluation.AndIs | bootstrap/harness/floor.py:1112-1113 | `and` stops at the first operand that is false or has no value |
| Evaluation.OrIs | bootstrap/harness/floor.py:1114-1115 | `or` at the first that is true or has none |
| Evaluation.LazilyAre | bootstrap/harness/floor.py:1116-1121 | `=>` and `ite` read only the operands they need, and fail with those |
| Evaluation.SumIs | bootstrap/harness/floor.py:1140-1148 | `+` is the sum exactly when every operand, and every partial sum before the last, is within 2^31; else it has no value |
| Evaluation.ProductIs | bootstrap/harness/floor.py:1140-1148 | `*` is the product under the same condition on partial products |
| Evaluation.DifferenceIs | bootstrap/harness/floor.py:1140-1148 | `-` is the first less all the others, or the negation of a single operand, under the same condition |
| Evaluation.ArithmeticFails | bootstrap/harness/floor.py:1140-1148 | None of the three has a value when an operand has none |
| Evaluation.MovesIs | bootstrap/harness/floor.py:1317-1335 | A step moves exactly to the state in which each variable has its first binding's value, read in the state before, or keeps its own; when its guard is true and that state is in range |
| Evaluation.LeavesIs | bootstrap/harness/floor.py:1317-1335 | Out of range it names the first variable that leaves |
| Evaluation.IdleIs | bootstrap/harness/floor.py:1317-1335 | It is idle exactly where its guard is false, and a problem exactly where guard or bindings have no value |
| Evaluation.SuccIs | bootstrap/harness/floor.py:1317-1335 | The moves from a state are those of the steps that move, in the steps' order; there are none once a step is a problem |
| Evaluation.StepIs | bootstrap/harness/floor.py:1276-1288 | Under a control a step stays when no mutation names it and its thread; else it gives way to a step for each replacement that does, in order |
| Evaluation.UnderEach | bootstrap/harness/floor.py:1276-1288 | Steps are replaced one by one, in their order |
| Explorer.Search.Successors | bootstrap/harness/floor.py:1316-1336 | The successors of a state in step order, cached; a step that leaves its range is recorded with its first variable instead |
| Explorer.Search.Depths | bootstrap/harness/floor.py:1345-1353 | Breadth-first search: exactly the reachable states, each with its least depth, or a refusal over the cap |
| Explorer.Search.Switches | bootstrap/harness/floor.py:1354-1369 | The 0-1 search over (state, last thread) ends, and its costs are exactly the least thread changes over runs of any length |
| Explorer.Search.PerState | bootstrap/harness/floor.py:1370-1375 | Per state the least over its last threads, and 0 for an initial state |
| Explorer.Search.Layers | bootstrap/harness/floor.py:1376-1392 | Least thread changes over runs of at most K steps, although each layer drops every entry that does not strictly improve |
| Explorer.Search.Inside | bootstrap/harness/floor.py:1393-1397 | Exactly the states some run of at most K steps with at most D thread changes ends in |
| Explorer.Search.Explore | bootstrap/harness/floor.py:1307-1397 | All of it: depths, switches, the bounded set and the blocked steps are exact, or the state cap or an expression that cannot be computed refuses the model |
| Explorer.DepthBound | bootstrap/harness/floor.py:1345-1353 | What is closed under steps bounds the depth of every run from below |
| Explorer.ChangesBound | bootstrap/harness/floor.py:1354-1369 | Likewise for thread changes |
| Explorer.NextLayered | bootstrap/harness/floor.py:1381-1392 | Dropping dominated entries keeps every layer exact |
| Verdict.InitialStates | bootstrap/harness/floor.py:1291-1304 | Exactly the assignments that satisfy `init` with each variable's first pin and the others in range; or too many candidates, or a candidate on which `init` cannot be computed |
| Verdict.ExploreModel | bootstrap/harness/floor.py:1307-1397 | The search of a model or of a control's mutation of it |
| Verdict.Hits | bootstrap/harness/floor.py:1421-1431 | A bad predicate's reachable states, with the least depth and the least thread changes over them |
| Verdict.CheckModel | bootstrap/harness/floor.py:1406-1445 | The findings are exactly the steps a range blocks, each with its smallest variable; the bad predicates some run reaches, with exact least depth and changes; and the controls that miss; or a refusal |
| Verdict.Clean | bootstrap/harness/floor.py:1406-1445 | No finding: in no state of any run, even with the ranges ignored, does a bad predicate hold, and every control reaches its bad state inside the bounds |
| Verdict.FreeIsRun | bootstrap/harness/floor.py:1330-1335 | With no blocked step, a run with the ranges ignored is a run of the ranged system |
| Verdict.PinsInRange | bootstrap/harness/floor.py:1291-1304 | The initial states are exactly the in-range states satisfying `init` if and only if every pin is in range, or there is no initial state |
| Verdict.PinsAre | bootstrap/harness/floor.py:1292-1297 | The pinned variables are those an equation with a numeral fixes in the conjunction, the first such equation for each |
| Verdict.PinOutside | bootstrap/harness/floor.py:1291-1304 | A one-variable model whose pinned initial state is out of range |
| Verdict.DepthRead | bootstrap/harness/floor.py:1376-1397 | Reading depth 0 as 1 changes what is reached if and only if the depth is 0, no initial state satisfies the predicate and some state one step away does |
| Verdict.DepthZero | bootstrap/harness/floor.py:1376-1397 | A model of depth 0 whose predicate counts as reached though only a step reaches it |
| Dominance.Dominators | bootstrap/harness/floor.py:190-216 | The in-place iteration ends, and a is in dom[b] exactly when a lies on every way to b from the entry or from a block without predecessors |
| Dominance.DominatorsSound | bootstrap/harness/floor.py:190-216 | What the sets name lies on every way from the entry |
| Dominance.DominatorsExactly | bootstrap/harness/floor.py:190-216 | A block's set is its dominators if and only if every way to it from a block without predecessors passes the entry, and if and only if the set has the entry |
| Dominance.DominatorsComplete | bootstrap/harness/floor.py:190-216 | When only the entry is without predecessors, every block's set is its dominators |
| Dominance.ReachedHasPred | bootstrap/harness/floor.py:206-212 | A reached block other than the entry has a predecessor, so reachability of every block is enough |
| Dominance.UnreachedShrinks | bootstrap/harness/floor.py:206-212 | A graph on which an unreached predecessor makes the sets miss a dominator |
| Dominance.Predecessors | bootstrap/harness/floor.py:194-198 | Exactly the blocks that branch to each block |
| Dominance.Coverage | bootstrap/harness/floor.py:325-341 | The iteration from everything covered ends with exactly the blocks every way out of which passes an unlock; dead ends and loops without exit are covered |
| Dominance.HeldAt | bootstrap/harness/floor.py:305-350 | True exactly when one lock call runs before the access on every way to it, every way from it to a return runs an unlock, and the access's block does not end in a tagged `unreachable` without an unlock after it |
| Dominance.SiteIs | bootstrap/harness/floor.py:311-313 | The calls that count are those on the lock asked about, and for a waiter list those on either of its two locks |
| Dominance.TaggedEnd | bootstrap/harness/floor.py:305-350 | A block that locks and then never ends: held when its last line is `unreachable`, not when that line has a tag |
| Dominance.HeldBrackets | bootstrap/harness/floor.py:305-310 | For a true answer: on every path from the entry to the access and on to a return, a lock runs before it and an unlock after |
| StackBound.Walker.Walk | bootstrap/harness/floor.py:644-657 | The depth-first walk: functions are met in the order of `Met`, every call that is not cut goes to a function finished earlier, and each reported cycle is one, whose first function is met first |
| StackBound.Gauge.Depth | bootstrap/harness/floor.py:663-673 | The memoised depth is the weight of a heaviest uncut chain, with that chain |
| StackBound.Measure | bootstrap/harness/floor.py:641-683 | Refused as recursing if and only if some cycle of calls has a function other than the trap route that the walk meets before the rest of it; else worst and trap depth are the weights of heaviest chains without a call that closes a cycle at the trap route, the total is over the quarter exactly when that is reported, and no failure means every cycle enters the trap route and every chain with at most one such call fits with the slack |
| StackBound.CutIs | bootstrap/harness/floor.py:644-660 | On a floor that is not refused as recursing, the calls the walk cuts are exactly those into the trap route from a function it leads to, whatever the order of the walk |
| StackBound.ReserveMeasure | bootstrap/harness/floor.py:617-683 | From calls, frames and the declared reserve: a missing reserve, the functions without a frame, or that report on the floor of the calls, each once in order of first call |
| StackBound.LegalRefused | bootstrap/harness/floor.py:652-654 | Two functions whose every cycle enters the trap route, refused all the same |
| StackBound.TrapFirst | bootstrap/harness/floor.py:658-660 | With the trap route first in the file, only cycles that avoid it are refused |
| StackBound.NoCycle | bootstrap/harness/floor.py:640-660 | What is left after the cut has no cycle |
| StackBound.OnePass | bootstrap/harness/floor.py:674-683 | A chain with at most one cut call weighs no more than the worst chain and one pass of the trap route |
| StaleReads.Search | bootstrap/harness/suspend_emission.py:159-182 | The worklist ends on every graph, and finds a hit exactly when some run from a resume root reads the slot before writing it |
| StaleReads.Report | bootstrap/harness/suspend_emission.py:124-185 | The slots reported are exactly those no store of the entry block is to, that some run reads first, each once, with a block that does |
| Rounding.RefRounds | bootstrap/generator/float_vectors.py:70-101 | The encoding is the one round-to-nearest, ties-to-even, picks; overflow and underflow are flagged exactly at infinity and zero |
| Rounding.NoneCloser | bootstrap/generator/float_vectors.py:70-101 | No value of the format is closer, and at a tie the answer is even |
| Rounding.RoundsOnce | bootstrap/generator/float_vectors.py:70-101 | There is only one such encoding |
| Rounding.RefMonotone | bootstrap/generator/float_vectors.py:70-101 | A larger number never gets a smaller encoding |
| Rounding.Flags | bootstrap/generator/float_vectors.py:94-101 | Overflow exactly from half-way past the largest finite value, underflow exactly to half the smallest subnormal |
| Rounding.ExponentIs | bootstrap/generator/float_vectors.py:84-89 | The exponent found from bit lengths is the binary logarithm, rounded down |
| Rounding.NextValue | bootstrap/generator/float_vectors.py:70-101 | Neighbouring encodings differ by one unit of the last place, across subnormals and exponents |
| Exponents.FormatBits | bootstrap/generator/float_vectors.py:70-101 | Infinity and one have their encodings in the two formats, and the exponent of all ones ends at 31 and 63 bits |
| Decimals.ShortcutsAgree | bootstrap/generator/float_vectors.py:75-83 | The shortcuts for magnitudes over 400 and under -400 give what the full computation gives, for every format within 2^1024 and 2^-1075 |
| Decimals.BothAgree | bootstrap/generator/float_vectors.py:75-83 | So for the 32-bit and the 64-bit format, the ones the program has |
| Exponents.Denotes | bootstrap/generator/float_vectors.py:75-84 | A text denotes its digits' number times ten to the exponent, over ten to the count of digits after the point |
| Exponents.PlacesCount | bootstrap/generator/float_vectors.py:75-84 | Digits count by their places |
| Exponents.TimesTen | bootstrap/generator/float_vectors.py:75-84 | One more in the exponent is ten times the number |
| Exponents.WrittenAlike | bootstrap/generator/float_vectors.py:75-84 | With any zeros before and after the digits, the point anywhere and the exponent to make up for it, a text converts to the same encoding and flag |
| Exponents.ZeroReads | bootstrap/generator/float_vectors.py:75-84 | Exactly the texts of zero convert to zero with no flag |
| Exponents.SciReads | bootstrap/generator/float_vectors.py:119-123 | The exponent form of digits converts as the digits themselves with the first of them at that power of ten |
| Decimals.FarIsInfinite | bootstrap/generator/float_vectors.py:79-83 | A number at or past 2^(emax+1) rounds to infinity, with the overflow flag |
| Decimals.NearIsZero | bootstrap/generator/float_vectors.py:79-83 | A number at or under half the smallest subnormal rounds to zero, with the underflow flag |
| Decimals.DyadicReads | bootstrap/generator/float_vectors.py:109-117 | The printed text reads back as exactly the rational printed |
| Decimals.NudgeReads | bootstrap/generator/float_vectors.py:125-133 | A nudged text reads as the number one unit of the last place away |
| Decimals.MidReads | bootstrap/generator/float_vectors.py:109-117 | The half-way text is exactly half-way, in a last place narrower than half the gap |
| Decimals.HalfwayTexts | bootstrap/generator/float_vectors.py:70-134 | For every encoding and the next: the half-way text goes to the even one, one unit up to the next, one unit down to the encoding; zero and infinity included |
| Exponents.HalfwayWritten | bootstrap/generator/float_vectors.py:70-134 | The same for those texts written with any zeros, point and exponent |
| RingProtocol.StepInv | sdk/npkdrv.h:215-237 | Every atomic step of either side keeps the invariant |
| RingProtocol.RunInv | sdk/npkdrv.h:31-42 | It holds in every state of every interleaving |
| RingProtocol.InOrderOnce | sdk/npkdrv.h:215-237 | The driver has received exactly the submitted descriptors in order, each once, up to the tail, and -1 is never returned |
| RingProtocol.NotRewritten | sdk/npkdrv.h:215-237 | No slot is written between its submission and its read |
| RingDriver.ReadExact | sdk/npkdrv.h:115-124 | The read loop returns exactly the next n bytes, end of file, or an error, however the bytes arrive |
| RingDriver.CheckHeader | sdk/npkdrv.h:189-200 | A header is accepted exactly when magic and version match, the capacity is a power of two and the ring fits the size mapped, however small |
| RingDriver.OneBit | sdk/npkdrv.h:189-200 | The mask test holds exactly for the powers of two |
| RingDriver.MaskIsMod | sdk/npkdrv.h:225-232 | Masking a free-running counter is the remainder by the capacity |
| RingDriver.SlotInside | sdk/npkdrv.h:189-232 | For any 64-bit tail the 32 bytes read lie inside the mapping accepted |
| RingDriver.Next | sdk/npkdrv.h:215-237 | One packet: 1 exactly when it announces the record at the tail's slot and the ring is not empty, with that record and the tail one further; 0 exactly at a shutdown or the end of the stream; otherwise, and when a read fails, -1; no other byte of the mapping changes |
| Wire.Asks | sdk/npkdrv.h:215-226 | The bytes of opcode, flags, length and two words, low byte first, are the end at opcode 0x00FF, a request for the two words at opcode 2 and length 8, and a defect otherwise |
| Wire.PacketOf | sdk/npkdrv.h:21-29 | Every 16 bytes are such a packet |
| Wire.HeaderIs | sdk/npkdrv.h:189-200 | The header checks pass exactly on the bytes of the magic number, version 3 and a power of two whose 32-byte slots fit behind 256 bytes |
| Wire.CountsRead | sdk/npkdrv.h:201-202 | The counters the driver reads are the words at 0x40 and 0x80 |
| RingLink.Serve | sdk/npkdrv.h:215-237 | On bytes laid out as any state of the ring, while the Bridge waits, a call is the driver's steps in that state: on 1 the record is the one in the tail's slot and what is left shows it taken; -1 is the driver failed, 0 the driver stopped, with the mapping as it was |
| RingLink.FrontMatches | sdk/npkdrv.h:215-237 | On such bytes the driver's test of a request is the protocol's: the ring is not empty and the slot at the tail holds the sequence number and kernel announced |
| RingLink.NeverRefused | sdk/npkdrv.h:215-237 | In a state of the protocol that test holds, and the record is the oldest descriptor not yet received |
| RingRuns.TakesOrRefuses | sdk/npkdrv.h:215-237 | In any state, a waiting driver's steps on a request end with it taken if the test holds, and failed otherwise |
| RingRuns.Submits | sdk/npkdrv.h:31-42 | While there is room the Bridge's steps can submit any descriptor: it stands in the slot of the head, counted and announced |
| RingRuns.Closes | sdk/npkdrv.h:21-29 | A free Bridge can close, with the shutdown announced or without |
| RingRuns.Stops | sdk/npkdrv.h:215-222 | At the shutdown, and at the end of a closed stream, the driver stops |
| Grammar.RoundTrip | bootstrap/generator/parse.py:35-58 | Printing any tree with only the parentheses the levels require and parsing the tokens gives the tree back |
| Grammar.PrintShortest | bootstrap/generator/parse.py:35-58 | Every tree that is parsed is one the printer prints, and its print is a shortest token list that parses to it |
| Grammar.NoneSpare | bootstrap/generator/parse.py:35-58 | With any two tokens of a printed tree dropped, a pair of parentheses among them, it no longer parses to the tree |
| Precedence.Groups | bootstrap/generator/parse.py:35-58 | By a table of rows of its own: of two operators between operands the one in the looser row is outermost, and of two in one row the second |
| Precedence.PrefixFirst | bootstrap/generator/parse.py:805-845 | A prefix operator takes its operand before any operator in the rows does, on either side |
| Precedence.RangeLast | bootstrap/generator/parse.py:798-810 | And before a range operator |
| Precedence.PipeFirst | bootstrap/generator/parse.py:805-845 | But a pipe is taken before a prefix operator |
| Precedence.PostFirst | bootstrap/generator/parse.py:805-900 | So is a postfix step |
| Precedence.PipesGroup | bootstrap/generator/parse.py:839-844 | Pipes group from the left |
| Precedence.ResultFirst | bootstrap/generator/parse.py:805-837 | An arithmetic prefix takes a Result prefix after it |
| Precedence.UnaryLast | bootstrap/generator/parse.py:819-837 | Nothing reads as a Result prefix on an arithmetic one |
| Grammar.ReadsBack | bootstrap/generator/parse.py:789-803 | The same at every level and before any token that cannot extend the operand |
| Grammar.ReadsOn | bootstrap/generator/parse.py:789-796 | A level's loop goes on from a printed tree as if it had built the tree itself: left grouping |
| Grammar.Parse | bootstrap/generator/parse.py:789-860 | The parser ends on every token list and takes at least one token for an expression |
| Grammar.Parser.ParseLevel | bootstrap/generator/parse.py:789-796 | The loop over one level reads what the level's grammar says, or fails where it does |
| Grammar.Parser.ParsePrefix | bootstrap/generator/parse.py:805-810 | Prefix operators of a level, nested |
| Grammar.Parser.ParseRange | bootstrap/generator/parse.py:798-803 | At most one range operator, its operands unary |
| Grammar.Parser.ParsePostfix | bootstrap/generator/parse.py:846-900 | Calls and postfix steps, applied in order |
| Grammar.Parser.ParseArguments | bootstrap/generator/parse.py:862-870 | Arguments up to the closing parenthesis, a last comma allowed |
| Grammar.Parser.ParsePrimary | bootstrap/generator/parse.py:971-975 | An atom, or a parenthesised expression |
| Renaming.Norm | meta/roadmap/1.6/tools/tidnorm.py:9-15 | The renumbering changes nothing but numbers, gives two names one number exactly when they are one name, and gives each new name the next number |
| Renaming.NormDecides | meta/roadmap/1.6/tools/tidnorm.py:9-15 | Two texts renumber to one text if and only if some one-to-one renaming that keeps families takes one to the other |
| Texts.TextsDecide | meta/roadmap/1.6/tools/tidnorm.py:9-15 | With no marker in a stretch that is kept, the two flat texts printed are equal if and only if such a renaming exists |
| Texts.TokenIs | meta/roadmap/1.6/tools/tidnorm.py:9-15 | A renumbered name is printed as its family's name, the mark `#` and its number in decimal |
| Texts.MarkerKept | meta/roadmap/1.6/tools/tidnorm.py:9-15 | Two texts that print alike with no renaming between them, because one holds a marker already |

## Left out

- Casts, strings, slices, structs, enum payloads, pointers, `#size_of`, the runtime and envelope builtins and the module header text of `emit.py`.
- `coerce` between widths: the modelled expressions never need it, since their types agree.
- Preservation.Preserved: does not cover functions outside `Checked.OkFunc`, among them those with a `break` past a defer, which the source's own comment calls a gap; `Limits` and `Shadowing` show what happens past its conditions.
- Source division by zero, the overflowing signed quotient and shifts by the width or more end both runs as undefined, at the same point of the same calls; what hardware does there is not modelled.
- The oracle answers a call from the history of calls; memory shared with callees is not modelled.
- Reading models, specifications and LLVM text: the searches and analyses start from parsed forms, and the text of diagnostics is left out.
- `read_model_explicit`'s grammar checks: the models are given as values, and expressions that cannot be computed refuse the model.
- Explorer.Search.Layers: the source's `INF` of 10^9 is modelled as absence.
- StackBound.OnePass: a chain that takes more than one cut call is not bounded, as the source's comment says: the holder's re-entry exits.
- StaleReads.Search: the events of a block are given; the alias and event scan over lines of text is not part of this model.
- Rounding.RefRounds: signs are left out, as in the source, which converts magnitudes; `body_of`'s scan of a literal is not part of this model.
- RingProtocol.InOrderOnce: covers fewer than 2^63 submissions, the range the free-running counters are compared in.
- RingLink.Serve: covers a call during which the Bridge makes no step; the interleavings are those of `RingProtocol`, whose steps are atomic loads and stores.
- The control socket, memfd, mapping and interface hash of `npkdrv_init`.
- Grammar.RoundTrip: leaves out field access, indexing, casts, array and struct literals, directives, ternaries and the spelling variants of one operator.
- Texts.TextsDecide: starts from the pieces the pattern finds; the scan for it is not part of this model.
