# GoScript compiler: verified models

GoScript compiles Go to TypeScript. This project models the parts of its compiler whose
correctness is not visible in a single function body, and proves what they promise. To
verify it: `dafny verify dfyconfig.toml`.

The model follows the code. Where the code does not do what the Go specification, its own
comments or its documentation ask for, the model keeps the code, a lemma shows an input for
which it goes wrong, and the general statement carries the exact condition (see "Where the code
falls short").

## What is modelled

**Goto and range-over-func lowering** (`compiler/lowering.go`, `compiler/typescript-emitter.go`).
`GoSource` is a statement language with opaque actions on a store, conditionals, loops, switches,
range-over-func loops, labels and branches, with the meaning given by the sections "Goto
statements", "Break statements", "Continue statements", "Switch statements" and "For statements
with range clause" of the Go Programming Language Specification. A list runs by program counter.
`JsTarget` is the target: labelled statements, loops, `switch`, callbacks and completion records
as in chapter 14 of ECMA-262, and the early errors of its sections 14.8.1, 14.9.1 and 14.13.1.
Both are total: a run that does not end is the outcome `Diverge` (`Iteration`). `GotoAnalysis`
and `Lowering` say which code is emitted; `GotoPasses` and `ListPasses` are the loops of the
compiler over statement lists, proved to compute exactly that. `Simulation`, `Constructs`,
`ListRuns`, `Regions` and `LoweringProof` prove that the emitted code runs as the source does,
and `LoweringTheorems` states it for whole function bodies:

- `Distinct`: the labels of the function are distinct, as Go asks for.
- `SaneIn`: what Go's type checker and the iterator protocol guarantee. Returns carry a value
  exactly when the function has results, a labelled break or continue stands in the statement with
  that label, and an iterator does not yield again after its `yield` returned false.
- `ScopedIn` (`Scopes`): a goto stands inside the state machine, the loop or the block of its
  label, a labelled branch inside a statement or an added loop or block that has its label in the
  output, and neither leaves a range-over-func body. It follows the cut of each list. `Placement`
  proves that it is exactly what the output needs: for every function with distinct labels there
  is no diagnostic and no early error if and only if it holds. `Spans` says where it always holds,
  by the positions of gotos and labels alone: when every list of the function has its gotos in one
  state machine, or they make loops (from a label to the last goto back to it) and blocks (from the
  first goto forwards to a label up to the label) that do not cross. A block may lie inside a loop
  or a loop inside a block, groups of blocks and loops may follow each other, and a goto may enter
  the loop behind it at its second statement. `Crossings` proves that lists which cross in one of
  four other ways, and are no state machine, are never in scope.
- `FaithfulIn`: within the part of a list that becomes a loop, plain breaks and continues are
  emitted as a named branch or a return, and no labelled branch names the loop; a goto straight into
  a loop skips exactly one statement; and in a state machine with a state in front of its first
  label no label is called `__entry`. Where it fails, `Captures` describes the run that the code has
  instead, and `CaptureTheorems` says for every list and every store whether the meaning is kept all
  the same.

**Async inference** (`compiler/semantic-model.go`). `AsyncInference` has the worklist, the
argument pass and the outer loop over mutable function records, for every order in which Go may
iterate its maps; `AsyncFacts` says what closed and least mean, and what chains of calls and edges
can make async; `AsyncLocality` says when the facts about some packages do not depend on the rest
of the program.

**The artifact cache** (`compiler/compiler-cache.go`, `compiler/package-graph.go`,
`compiler/service.go`). `CacheKeys` is the text that keys are hashed from and the package digests,
`CacheRuns` a state machine in which any number of stores and replays run side by side, any file
operation may fail, any process may die and blobs may be lost or damaged, and `CacheReplay` the
store and the replay on one cache. `CacheInputs` ties keys and emitted files to what a compile
reads: the request, the package graph, the async names found in the whole program, and whether
type information that only `reflect` needs is left out. `CacheCompile` is the compile around the
cache, and says what a hit gives. A hash is a function without collisions.

**Graph algorithms**: `ImportChain` (breadth-first search for a blocklisted package), `CopyPlan`
(depth-first plan of override packages) and `StructOrder` (declaration order of structs).

**Exact pieces**: `Stripper` (comments and strings), `ImportAliases`, `WideIntegers` (shifts and
ors on 64 bits) and `Quotients` (division by way of doubles).

`Ordering` and `FiniteSets` hold the order on strings and facts about set sizes.

## Where the code falls short

- A plain `break` or `continue` inside a goto state machine, or inside a labelled loop the
  lowering added, means the wrong loop unless it is emitted with the name of the for loop or as a
  `return`. The name is missing in range loops and when the gotos are in a nested block of the
  loop body, and a break does not use it in a loop inside a switch clause, because the switch mark
  is never taken back (`BreakKeptExactly`, `ContinueKeptExactly`, `BreakInMachine`,
  `ContinueInMachine`, `BreakLostInRangeLoop`, `BreakLostInNestedBlock`, `BreakLostInSwitch`).
- A `goto` directly in front of a loop that holds its target is taken for one that enters the loop
  behind its first statement, whatever the target is. The code keeps the meaning if and only if the
  run from there is the run from the target (`EntryKeptExactly`). It does not when the target is
  the first statement itself: for a statement that only jumps to itself (`SelfLoopSkipped`,
  `SelfLoopLost`), and for any second loop behind an earlier one (`SecondLoopSkipped`).
- A labelled break or continue of a for loop is emitted with the name of the loop that the lowering
  adds when the same label is jumped back to: the break also leaves the statements behind the for
  loop, and the continue begins the for loop anew. For every such list and store the meaning is kept
  if and only if that makes no difference (`LabelBreakKeptExactly`, `LabelContinueKeptExactly`; for
  `L: for { break L }; x; if c { goto L }` in `LabelledBreakLost`).
- The statement at a label that is only jumped to forwards, and every statement of a state machine,
  loses its label, so that a labelled branch to it is rejected by JavaScript (`GoneLabelRejected`).
  Ordinary functions are affected, without a diagnostic: `if c { goto L }; a; L: for { break L }`
  (`LabelLostBehindBlocks`), and in a machine also loops whose label no goto goes to
  (`LabelLostInMachine`).
- A label called `__entry` is taken for the state in front of the first label. It misleads a state
  machine if and only if it is one of its labels and the machine has such a state
  (`NameMisleadsExactly`); a run that comes to it keeps its meaning if and only if starting the
  machine again gives the same (`NameKeptExactly`, `EntryLabelHangs`).
- Gotos that cross are rejected in every list that is no state machine, ordinary ones among them: a
  goto forwards out of a loop of gotos (`LoopLeftRejected`), one back into such a loop from behind it
  (`LoopReenteredRejected`), a chain of labels each of which goes on to the next (`ChainRejected`:
  `if c { goto M }; b; M: if d { goto N }; e; N: f`), and a loop inside a block that holds a block
  itself (`LoopCutRejected`).
- Labelled branches and gotos out of a range-over-func body, and a goto from one backward loop
  into another, are emitted as branches that JavaScript rejects, without a diagnostic
  (`NothingLeavesACallback`, `JumpAcrossLoops`). Disjoint spans are therefore not enough; what is
  needed is `ScopedIn` (`PlacedExactly`).
- One run of the async worklist misses a caller that names a newly async function by another
  object (`SeenIsCalled`, `AliasMissed`); the outer loop makes up for it. Call sites are not
  looked at again after the interface edges. They stay closed if and only if no chain of calls and
  edges reaches an argument without one that reaches the called function (`SitesClosedExactly`,
  `SitesReopen`).
- The key of a package covers exactly what it imports (`GeneratedKeyExact`), but what is emitted
  for it also depends on the whole program: a function can be async because of its callers
  (`CalleeDependsOnCaller`), and type information is left out unless some requested package leads
  to `reflect`. Entries are never replaced, so after a change of another package a hit gives the
  files of the compile before it (`CompileChanged`, `CallerChangesFacts`, `ReflectChangesFacts`). A
  hit is fresh, whatever is emitted, if and only if packages with unchanged sources see unchanged
  facts (`SettledExactly`), and they do when nothing outside their imports can make their functions
  async (`LocalFactsSettle`).
- A replay that finds one entry and misses another has already written the files of the first, and
  the entry of a package lists the files of the packages below it as well. So a compile can
  overwrite a file of a package that it neither compiles nor copies by an earlier version
  (`BelowReplayed`, `BelowOverwritten`). Beside the files that the compile itself writes and
  copies, the output is as it was if and only if those files hold what is there
  (`BesideExactly`); nothing is written when the first entry is not in the cache (`NothingTried`).
- `(x << s) | y` becomes an addition when y is a call with one argument and the type of the
  argument has at most `s` bits. That says little about the value of y: a conversion of a negative
  signed argument has more bits, and so may the result of a function from `uint32` to `uint64`
  (`SignedOperandCarries`, `OrFormExactly`). The rewriting is right for exactly the values below
  `2^s` (`AddIsOrExactly`).

## Model

| member | source | states |
|---|---|---|
| LoweringTheorems.FunctionPreserved | compiler/lowering.go:4171-4316 | for every function body with distinct labels under `SaneIn` and `FaithfulIn`, conditions on the source alone: a diagnostic or an early error exactly when it is not `ScopedIn`, and otherwise the same result and the same store, or neither ends, from every store |
| LoweringTheorems.OutputPreserved | compiler/lowering.go:4171-4316 | the same behaviour for every function body with distinct labels under `SaneIn` and `FaithfulIn` that is lowered without a diagnostic to code without early errors |
| LoweringTheorems.PlacedExactly | compiler/lowering.go:4171-4316 | no diagnostic and no early error if and only if every goto and branch is in scope, for every function body with distinct labels and no other condition |
| LoweringTheorems.OneShapePreserved | compiler/lowering.go:4171-4316 | functions in which every list, also a nested one, has one state machine, or loops and blocks of gotos that do not cross, in any mixture and nesting (`ShapelyIn`, with the plain branches out of the loops that are added named or returns): no diagnostic, no early error, and the same behaviour |
| LoweringTheorems.LoopThenBlockPreserved | compiler/lowering.go:4228-4275 | for all actions and conditions, `L: a; if c { goto L }; if d { goto M }; b; M: e` is lowered to a loop and a block with the same behaviour |
| LoweringTheorems.RangeLoopsPreserved | compiler/lowering.go:6593-6635 | for every nesting of range-over-func loops with loops, switches and conditionals and every iterator that stops, the callback form computes what the structured loops compute |
| LoweringTheorems.LegalIffScoped | compiler/lowering.go:4085-4127 | without gotos there is no diagnostic, and the output has no early error if and only if the branches are in scope |
| LoweringProof.SimFrom | compiler/lowering.go:4171-4316 | lists in any context from any position of the traversal: the emitted code follows the source, with gotos to enclosing constructs, outward branches, returns and divergence |
| LoweringProof.SimStmt | compiler/lowering.go:3946-4134 | the same for every statement |
| LoweringProof.SimBranch | compiler/lowering.go:4085-4127 | an emitted break, continue or goto completes as the branch it stands for in its context |
| LoweringProof.SimReturn | compiler/lowering.go:5914-5942 | a return in a range-over-func body sets the flag and the value of that body and stops the iterator; elsewhere it returns |
| LoweringProof.SimIf | compiler/lowering.go:3935-3944 | both arms are lowered in the same context and follow |
| LoweringProof.SimFor | compiler/lowering.go:6246-6321 | a for loop, named when its body has backward labels, follows its source |
| LoweringProof.SimRange | compiler/lowering.go:6593-6635 | a range-over-func loop, with its flag and the propagation of returns to an outer body, follows its source |
| LoweringProof.SimSwitch | compiler/lowering.go:6867-6948 | a switch with fallthrough, whose plain breaks leave the switch, follows its source |
| LoweringProof.SimItem | compiler/lowering.go:4035-4048 | a labelled statement follows, and labelled breaks to it end there |
| LoweringProof.SimCluster | compiler/lowering.go:4436-4507 | the state variable, the loop and the switch run like the cluster's part of the list with its plain branches captured and `__entry` taken for the entry, up to its end |
| LoweringProof.SimSegments | compiler/lowering.go:4467-4494 | each case runs like the statements from its label to the next, and goes on with the next state |
| LoweringProof.SimEntry | compiler/lowering.go:4451-4465 | the statements in front of the first label have a state of their own and go on with the first label |
| LoweringProof.SimBackward | compiler/lowering.go:4526-4575 | `label: while (true) { ...; break }` runs like the span of a backward label with its plain branches and those to the label captured, also when it is extended over a return |
| LoweringProof.SimLeading | compiler/lowering.go:4526-4575 | with the skip flag, the code runs like the span entered behind its first statement, whatever the goto in front of it goes to |
| LoweringProof.SimGroup | compiler/lowering.go:4640-4675 | nested labelled blocks run like a group of forward gotos |
| LoweringProof.SimNest | compiler/lowering.go:4654-4669 | each further block starts where the one before it ends, and a break to its label goes on behind it |
| Constructs.ForFollows | compiler/lowering.go:6246-6252 | a for loop follows when its body follows in the context without range branches and with the loop's own name, or none |
| Constructs.FirstClauseFollows | compiler/typescript-emitter.go:946-979 | a case ended by `break`, unless it falls through, follows its clause and those after it |
| Constructs.CallbackFollows | compiler/typescript-emitter.go:996-1021 | one call of the callback: true goes on, false stops with the flag set exactly for a return |
| Constructs.RangeCallFollows | compiler/typescript-emitter.go:981-1021 | the call with the callback ends as the loop does, with what a return has left in flag and value |
| Constructs.RangeFollows | compiler/typescript-emitter.go:981-1062 | declaration of the flag, call and propagation together follow the loop |
| Regions.CaseFollows | compiler/lowering.go:4467-4494 | a case body that follows its segment dispatches as the goto, the next label or the end of the cluster asks for |
| Regions.ClusterLoopFollows | compiler/lowering.go:4436-4507 | the dispatch loop follows the list as long as each case follows its segment |
| Regions.LoopFollows | compiler/lowering.go:4526-4575 | the added loop follows the span as long as each pass does |
| Placement.FromExact | compiler/lowering.go:4171-4316 | lists in any context: no diagnostic and no early error if and only if the list is in scope there |
| Placement.StmtExact | compiler/lowering.go:3946-4134 | the same for every statement |
| Placement.ClusterExact | compiler/lowering.go:4436-4507 | the same for a state machine, whose statements lose their labels |
| Placement.BackwardExact | compiler/lowering.go:4526-4575 | the same for a labelled loop |
| Placement.LeadingExact | compiler/lowering.go:4526-4575 | the same for a labelled loop that a goto enters |
| Placement.GroupExact | compiler/lowering.go:4640-4675 | the same for a nest of labelled blocks |
| Placement.BlocksExact | compiler/lowering.go:4640-4675 | in every piece of a group a goto to a label of the group stands inside the block of that label |
| Spans.OneShapeScoped | compiler/lowering.go:4171-4316 | every list of one shape is in scope when its statements are where all targets of the list may be gone to, and faithful when they are and their plain branches leave the added loops |
| Spans.ListShapely | compiler/lowering.go:4171-4316 | a list that has one of the shapes in itself and in all lists inside it is in scope and faithful |
| Spans.MoreScoped | compiler/lowering.go:3946-4134 | what is in scope stays so where more labels may be named, unless a state machine hides those of the machine around it |
| Spans.LoopSpan | compiler/lowering.go:4709-4736 | the loop of a label ends with the last goto back to it, or with a return without a label directly behind that |
| Spans.LoopShape | compiler/lowering.go:4526-4575 | the statements behind the label of a loop, also of one that a goto enters, are again a list whose loops and blocks do not cross |
| Spans.PieceShape | compiler/lowering.go:4640-4675 | and so is each piece of a group of blocks |
| Spans.GroupJump | compiler/lowering.go:4590-4638 | every goto that touches a group of blocks starts and ends in front of its last label; forwards it goes to a label of the group, and backwards past none |
| Spans.DividedSpanned | compiler/lowering.go:4171-4316 | a list of consecutive parts that no goto crosses, each with backward gotos only, nested or disjoint, or with forward gotos only, has one of the shapes |
| Spans.ForBodySurvives | compiler/lowering.go:4684-4689 | plain branches in the body of a for statement outside switches always leave the loops that are added there, because the for loop then has a name |
| Scopes.BranchesInScope | compiler/lowering.go:4085-4107 | a statement in scope holds no labelled branch to a label that it does not declare and that may not be named in front of it, however it is cut |
| Scopes.GotosInScope | compiler/lowering.go:4091-4104 | nor a goto to a label that it does not declare and that may not be gone to in front of it |
| Captures.NothingCaptured | compiler/lowering.go:4368-4575 | where plain branches survive, no branch names the added loop and no label is taken for the entry, the run with captures is the run of the list |
| Captures.BreakRuns | compiler/lowering.go:4109-4123 | a run that a plain break leaves goes on behind the part when the break is captured |
| CaptureTheorems.ChunkCaptures | compiler/lowering.go:4368-4575 | for every state machine and labelled loop and every store, the emitted code follows the run with captured branches: plain ones, labelled ones to the added loop, and a label taken for the entry |
| CaptureTheorems.KeptExactly | compiler/lowering.go:4368-4575 | and keeps the meaning from that store if and only if the captures make no difference to the run, up to branches that the context emits alike |
| CaptureTheorems.BreakKeptExactly | compiler/lowering.go:4109-4123 | for every list and every store from which a plain break leaves the part: kept if and only if the break is emitted with the loop's name or as a return, or the list breaks again at once behind the part; also for loops that a goto enters, at the wrong place or at the right one |
| CaptureTheorems.ContinueKeptExactly | compiler/lowering.go:4109-4123 | the same for a plain continue, which otherwise repeats the state or the loop |
| CaptureTheorems.LabelBreakKeptExactly | compiler/lowering.go:4526-4575 | for every added loop and every store from which its first statement breaks to the label: kept if and only if going on behind the loop gives what going on behind the statement gives |
| CaptureTheorems.LabelContinueKeptExactly | compiler/lowering.go:4526-4575 | the same for a continue of the label: kept if and only if beginning the statement anew gives what its next turn gives |
| CaptureTheorems.NameMisleadsExactly | compiler/lowering.go:4451-4465 | the dispatch goes astray for some label of a state machine if and only if `__entry` is one of its labels and it has a state in front of the first |
| CaptureTheorems.NameKeptExactly | compiler/lowering.go:4451-4465 | from every store from which the run comes to that label: kept if and only if starting the machine again gives what the list does there |
| CaptureTheorems.EntryKeptExactly | compiler/lowering.go:4738-4769 | a goto in front of a loop it enters keeps its meaning if and only if the run from behind the loop's first statement is the run from the target |
| Deviations.BreakInMachine | compiler/lowering.go:4109-4123 | in every context: `goto L; L: break; goto L` keeps its meaning if and only if the break is emitted with the loop's name or as a return |
| Deviations.ContinueInMachine | compiler/lowering.go:4109-4123 | the same for a plain continue |
| Deviations.BreakLostInRangeLoop | compiler/lowering.go:6427-6553 | counterexample: in a range loop, which never gets a name |
| Deviations.BreakLostInNestedBlock | compiler/lowering.go:4684-4689 | counterexample: only the list of the loop body itself is searched for backward gotos |
| Deviations.BreakLostInSwitch | compiler/lowering.go:3930-3933 | counterexample: in a for loop inside a switch clause |
| Deviations.EntryLabelHangs | compiler/lowering.go:4451-4465 | for every label l, `goto l; l: return; goto l` keeps its meaning if and only if l is not the name of the entry state |
| Deviations.SelfLoopSkipped | compiler/lowering.go:4738-4769 | for every statement s with a goto to l, `goto l; l: s` is lowered to code that ends at once and never runs s |
| Deviations.SelfLoopLost | compiler/lowering.go:4738-4769 | counterexample: the assignment of such a statement is lost |
| Deviations.SecondLoopSkipped | compiler/lowering.go:4738-4769 | for all actions and conditions, `K: a; if c { goto K }; goto L; L: b; if d { goto L }` keeps its meaning if and only if skipping b makes no difference |
| Deviations.LabelledBreakLost | compiler/lowering.go:4526-4575 | for every x and c, the code for `L: for { break L }; x; if c { goto L }` ends at once, while the source goes on with x: the same behaviour if and only if the rest ends without a result and leaves every store as it is |
| Deviations.GoneLabelRejected | compiler/lowering.go:4467-4478 | in every context, a labelled branch to the label of a state or of a group of forward gotos, in the statement that had it, is a diagnostic or an early error |
| Deviations.LabelLostBehindBlocks | compiler/lowering.go:4640-4675 | for all actions and conditions, `if c { goto L }; a; L: for { break L }` is lowered without a diagnostic to code with an early error |
| Deviations.LabelLostInMachine | compiler/lowering.go:4467-4478 | counterexample: a labelled break of a labelled for loop inside a state machine has no target in the output |
| Deviations.NothingLeavesACallback | compiler/lowering.go:4085-4107 | a labelled branch or goto as the body of a range-over-func loop is a diagnostic or an early error, in every context |
| Deviations.JumpAcrossLoops | compiler/lowering.go:3881-3895 | for all actions and conditions, a goto from one backward loop to a later one is emitted as a continue of a loop that is not open, without a diagnostic |
| Deviations.LoopLeftRejected | compiler/lowering.go:4228-4252 | in every list that is no state machine: a goto forwards from inside a backward loop to a label behind it is a diagnostic or an early error, when no goto crosses the label of the loop and no block starts there |
| Deviations.LoopReenteredRejected | compiler/lowering.go:4242-4275 | the same for a goto back from behind a loop to a label inside it |
| Deviations.ChainRejected | compiler/lowering.go:4238-4252 | the same for a goto forwards in the labelled statement that ends a block, when no block goes beyond that label |
| Deviations.LoopCutRejected | compiler/lowering.go:4640-4675 | the same for a goto back past a label of a group of blocks |
| GotoPasses.GotoStateClusterAt | compiler/lowering.go:4368-4434 | finds a cluster exactly where a list with a backward goto has its first own goto, no later than its first target; start, first label, end and the labels in between are exact |
| GotoPasses.BackwardGotoLabelSpans | compiler/lowering.go:4709-4736 | each label jumped back to, with its last backward goto, extended over a plain return behind it |
| GotoPasses.ForwardGotoLabelSpans | compiler/lowering.go:4771-4807 | the labels without a backward span that are jumped forwards to, each with its first goto |
| GotoPasses.ForwardGotoLabelGroupAt | compiler/lowering.go:4590-4638 | the least set of spans with those that start here that is closed under "starts in front of the group's last label", sorted by label, for every order of the map |
| GotoPasses.PullIn | compiler/lowering.go:4612-4629 | one pass over the map adds only spans that every closed group has, and reports whether it added any |
| GotoPasses.GroupIsLeast | compiler/lowering.go:4590-4638 | that least set is the group that the lowering is proved for |
| ListPasses.LowerStmtListAfter | compiler/lowering.go:4171-4316 | the loop over a list emits what `LowerFrom` says: clusters first, then loops entered by a goto, forward groups, backward loops, single statements |
| ListPasses.LowerGotoStateCluster | compiler/lowering.go:4436-4507 | the loop over the labels emits the table of states of the cluster |
| ListPasses.LowerForwardGotoLabelGroup | compiler/lowering.go:4640-4675 | the loop over the spans emits the nest of blocks of the group |
| ListPasses.LeadingGotoBackwardLoopSpan | compiler/lowering.go:4738-4769 | finds a span exactly when a goto stands in front of a loop it enters |
| AsyncInference.MarkFunctionAsync | compiler/semantic-model.go:1277-1288 | the function is async afterwards, the reason is listed once, and a change is reported for a new state or a new reason |
| AsyncInference.SemanticModel.SemanticFunctionFor | compiler/semantic-model.go:1026-1050 | every object finds its function, whatever has been looked up before; nothing else changes |
| AsyncInference.SemanticModel.FunctionAsync | compiler/semantic-model.go:1756-1784 | async by its function, or as an interface method by identity or full name |
| AsyncInference.SemanticModel.CollectCallers | compiler/semantic-model.go:1263-1275 | every call edge is in the caller map, for every order of the functions |
| AsyncInference.SemanticModel.PropagateFunctionAsync | compiler/semantic-model.go:1226-1261 | ends, with the least facts above the current ones that are closed under the calls the worklist sees |
| AsyncFacts.SeenIsCalled | compiler/semantic-model.go:1226-1261 | these facts are below all facts closed under calls, and are closed under calls if and only if no caller is missed by an alias |
| AsyncFacts.AliasMissed | compiler/semantic-model.go:1230-1242 | counterexample: a caller that names a newly async function by another object is missed |
| AsyncInference.SemanticModel.ArgumentPass | compiler/semantic-model.go:881-919 | marks only what the call sites force, and when it changes nothing every site is closed |
| AsyncInference.SemanticModel.PropagateAsyncFunctionArguments | compiler/semantic-model.go:873-928 | ends, closes all call sites, marks only what calls and sites force, and keeps closure under the calls that a worklist sees from any facts below, and closure under calls |
| AsyncInference.SemanticModel.ApplyInterfaceAsyncMethods | compiler/semantic-model.go:1696-1732 | every named edge whose implementation was async is applied, and nothing that is not forced |
| AsyncInference.SemanticModel.ApplyAnonymousInterfaceAsyncMethods | compiler/semantic-model.go:1734-1754 | one pass in any order closes the anonymous edges when implementation is transitive |
| AsyncFacts.OnePassCloses | compiler/semantic-model.go:1734-1754 | why one pass is enough: each method it marks leads back to an implementation that was async before |
| AsyncInference.SemanticModel.SemanticAsyncFunctionCount | compiler/semantic-model.go:1290-1301 | counts the objects that stand for async functions, once each |
| AsyncInference.SemanticModel.CountGrows | compiler/semantic-model.go:101-118 | the count never falls, is bounded, and an equal count means that no function became async, even though lookups add objects |
| AsyncFacts.StableRound | compiler/semantic-model.go:101-118 | a round that adds no async function leaves calls, named edges and anonymous edges closed, although it may have added methods |
| AsyncInference.SemanticModel.CloseOverInterfaces | compiler/semantic-model.go:101-118 | the outer loop ends, and leaves the least facts above those at its start that are closed under calls, named edges and, when transitive, anonymous edges |
| AsyncInference.SemanticModel.InferAsync | compiler/semantic-model.go:78-118 | the whole inference: closed under calls and edges, and already at the start of the outer loop under call sites and the calls that the worklist sees; nothing is async that calls, sites and edges do not force, and the call sites are closed at the end if and only if the trails of calls and edges from that start keep them so |
| AsyncFacts.LeastIsReached | compiler/semantic-model.go:101-118 | the least closed facts hold exactly what a chain of calls and edges leads to from an async function or method |
| AsyncFacts.SitesClosedExactly | compiler/semantic-model.go:83-118 | call sites that were closed stay closed if and only if no chain reaches an argument without one that reaches the called function; and they stay closed when no argument of a synchronous function is reached |
| AsyncFacts.SitesReopen | compiler/semantic-model.go:83-118 | counterexample: the least closed facts can leave a call site open |
| AsyncLocality.SameInference | compiler/semantic-model.go:78-118 | two programs that agree on packages whose functions nothing outside can make async get the same facts about them, whatever the rest is |
| AsyncFacts.CalleeDependsOnCaller | compiler/semantic-model.go:896-911 | a function that calls nothing is async or not depending on a call site of its caller |
| CacheKeys.QuoteRoundTrip | compiler/compiler-cache.go:442-447 | a quoted value can be read back from the front of any text |
| CacheKeys.FieldsRoundTrip | compiler/compiler-cache.go:442-447 | the fields can be read back from the lines |
| CacheKeys.LinesInjective | compiler/compiler-cache.go:442-447 | two field sequences with the same lines are the same |
| CacheKeys.SameDigestSameNode | compiler/compiler-cache.go:360-398 | equal digests mean equal records, equal imports, and equal digests of the imports in the graph |
| CacheKeys.MerkleSound | compiler/compiler-cache.go:360-398 | equal digests mean equal nodes along every import chain within the graph |
| CacheKeys.ClosureDigests | compiler/compiler-cache.go:360-398 | the converse: equal import closures have equal digests, for every hash |
| CacheKeys.MerkleExact | compiler/compiler-cache.go:360-398 | two digests of a package are equal if and only if its import closures are |
| CacheKeys.GeneratedKeySound | compiler/compiler-cache.go:336-344 | equal keys mean the same compiler and request, and equal nodes over the whole import closure |
| CacheKeys.GeneratedKeyExact | compiler/compiler-cache.go:336-344 | two keys of a package are equal if and only if compiler, request and import closure are |
| CacheKeys.CopiedKeySound | compiler/compiler-cache.go:346-358 | equal keys mean the same compiler and request, the same package and the same files with the same digests |
| CacheKeys.KindsApart | compiler/compiler-cache.go:336-358 | a generated and a copied entry never share a key |
| CacheKeys.KeyOwner.Digest | compiler/compiler-cache.go:360-398 | the memoised digest is the plain recursive one, whatever was asked before |
| CacheRuns.StepSafe | compiler/compiler-cache.go:208-302 | every file operation, failure and outside damage keeps the invariant, and no visible entry changes or disappears |
| CacheRuns.RunSafe | compiler/compiler-cache.go:245-302 | along every interleaving, visible entries are complete and never change |
| CacheRuns.HitWroteManifests | compiler/compiler-cache.go:102-126 | a replay that reports a hit has read the wanted entries and wrote exactly their files, with data of the listed size and digest |
| CacheRuns.HitWroteStored | compiler/compiler-cache.go:227-243 | for each file of each manifest of a hit, what was written is what a store was given |
| CacheReplay.ArtifactCache.StoreBlob | compiler/compiler-cache.go:277-302 | the path of the content's digest, a blob that is added whole or not at all, no blob replaced; and when no operation failed it is there |
| CacheReplay.ArtifactCache.StoreManifest | compiler/compiler-cache.go:245-275 | an entry with files appears complete or not at all, and never replaces another; when no operation failed there is one |
| CacheReplay.ArtifactCache.StoreGenerated | compiler/compiler-cache.go:128-168 | each new entry describes exactly the files under its package's prefix, by path, under the key asked for; when no operation failed every package with files and an entry asked for has one, and all blobs are there |
| CacheReplay.ArtifactCache.StoreCopied | compiler/compiler-cache.go:170-206 | each new entry lists exactly the files of an override package of the plan, by path; when no operation failed every package of the plan with files has one |
| CacheReplay.ArtifactCache.ReadManifest | compiler/compiler-cache.go:208-225 | a manifest is returned only for a complete entry with this key, and always when the entry is there and no operation failed |
| CacheReplay.ArtifactCache.ReplayManifest | compiler/compiler-cache.go:227-243 | the output has the files in order up to the first that is not safe, present and matching or cannot be written; it succeeds when they all are and no operation failed |
| CacheReplay.ArtifactCache.Replay | compiler/compiler-cache.go:102-126 | the output is exactly the files of the entries found in front of the first miss, written in order, and of all entries on a hit; it is a hit when every entry is there with its blobs and no operation failed |
| CacheReplay.OwnFileReplayed | compiler/compiler-cache.go:102-126 | after a hit every own file of a generated package holds that package's stored content, although packages with shorter paths list it as well |
| CacheReplay.Entries | compiler/compiler-cache.go:69-100 | the generated packages in path order with the keys of their paths, then the plan |
| CacheReplay.HitGives | compiler/compiler-cache.go:102-168 | after a hit every own file of a package is what the compile that stored its entry emitted, without any condition on keys |
| CacheReplay.HitAgrees | compiler/compiler-cache.go:102-168 | where keys determine what is emitted, a hit gives every own file its fresh content, whatever filled the cache |
| CacheReplay.CopyAgrees | compiler/compiler-cache.go:102-206 | and every file of an override package its content of this compile |
| CacheReplay.HistoryGrows | compiler/compiler-cache.go:128-206 | after a full compile every entry still comes from a compile that has its key |
| CacheInputs.KeysExactly | compiler/compiler-cache.go:336-344 | two packages of two compiles have the same key if and only if they are the same package with the same request and the same import closure |
| CacheInputs.CopiesDetermined | compiler/compiler-cache.go:346-358 | equal keys of override packages always stand for the same files |
| CacheInputs.DetermineExactly | compiler/service.go:79-239 | equal keys stand for equal files if and only if no package with unchanged sources is written differently |
| CacheInputs.SettledExactly | compiler/service.go:199-205 | they do so for every way of writing packages if and only if packages with unchanged sources see the same async names and the same `reflect` |
| CacheCompile.HitGiven | compiler/service.go:119-131 | a hit gives each package the files of an earlier compile with the same sources for it |
| CacheCompile.GivenFreshExactly | compiler/service.go:119-131 | these are fresh if and only if this compile would write the same |
| CacheCompile.Compile | compiler/service.go:79-239 | a compile is fresh; a replay gives each package the files of an earlier compile with the same sources, and is fresh when packages with unchanged sources see unchanged facts; the copied files are always fresh; entries never change, and stay explained by the history, also after failures; the output is what it was, overwritten by the files replayed before the hit or miss, those emitted and those copied, and any other path is as before, also after a failure |
| CacheCompile.BesideExactly | compiler/service.go:119-235 | a path that a full compile neither writes nor copies is as before if and only if the replay that missed wrote nothing else there |
| CacheCompile.NothingTried | compiler/compiler-cache.go:102-126 | a replay whose first entry is not in the cache writes nothing |
| CacheCompile.BelowReplayed | compiler/compiler-cache.go:144-160 | replaying the entry of a package writes the files of the packages below it, as the compile emitted them that stored it |
| CacheCompile.BelowOverwritten | compiler/compiler-cache.go:144-160 | counterexample: a hit of p brings back an earlier file of p/q, which is not compiled |
| CacheCompile.CompileTwice | compiler/service.go:79-239 | unless an operation fails, compiling the same again is a hit; and from an empty cache the two compiles leave the output as it was, overwritten by what is emitted and what is copied |
| CacheCompile.ReplayKeepsOutput | compiler/compiler-cache.go:102-126 | replaying entries that a compile has stored itself leaves its output as it is |
| CacheCompile.CompileChanged | compiler/service.go:79-239 | compile, change other packages, compile twice: the last is a hit, and a package with unchanged sources has the files of the first, fresh if and only if the change makes no difference to them |
| CacheCompile.LocalFactsSettle | compiler/semantic-model.go:78-118 | a package whose functions nothing outside its imports can make async sees the same facts in both |
| CacheCompile.CallerChangesFacts | compiler/semantic-model.go:896-911 | counterexample: two compiles with the same sources of p, whose inference finds p.f synchronous in the first and async in the second |
| CacheCompile.ReflectChangesFacts | compiler/service.go:199-205 | counterexample: the same with a package that comes to lead to `reflect` |
| Ordering.PrefixFirst | compiler/package-graph.go:159-164 | a path sorts in front of its extensions |
| ImportChain.PackageBlocklistChain | compiler/package-graph.go:290-351 | nothing exactly when no chain of imports from a requested root through packages that are not overrides reaches a blocked one; otherwise the first, in the order of the paths, of the shortest such chains, in whatever order packages are requested or imported |
| ImportChain.Expand | compiler/package-graph.go:330-349 | one turn of the search keeps the queue sorted by distance and by path, each entry the first of the shortest chains to its package, and everything nearer explored |
| ImportChain.PackagePathBlocklisted | compiler/package-graph.go:357-366 | the package itself or one below it, at a path boundary |
| ImportChain.BlockedExactly | compiler/package-graph.go:357-366 | a path is blocked exactly when it is the blocked one or goes on behind it with a slash: "crypto" does not block "cryptobyte" |
| CopyPlan.Planner.AddPackageToPlan | compiler/override-registry.go:189-238 | succeeds exactly when no path of dependencies leads to a missing package or into a cycle; then the package is planned behind its dependencies, and nothing is planned that it does not need; otherwise the diagnostics are exactly those due: a missing package for each that a path without repetition leads to, a cycle for each package that such a path meets again |
| CopyPlan.BadBehind | compiler/override-registry.go:189-238 | a package leads to a cycle or a missing package if and only if one of its dependencies does |
| CopyPlan.DueBehind | compiler/override-registry.go:189-238 | a diagnostic is due for a package if and only if it is due for one of its dependencies |
| CopyPlan.PlannedIsGood | compiler/override-registry.go:202-206 | what is already planned leads nowhere bad, so skipping it is right |
| CopyPlan.Plan | compiler/override-registry.go:59-102 | diagnostics exactly when something bad is reachable from `builtin` or an override node, and exactly those due; otherwise a duplicate-free plan in which dependencies stand in front, with all roots and only what they need, and in front of each root only what it or an earlier root needs |
| StructOrder.StructZeroValueDeps | compiler/typescript-emitter.go:392-408 | the names that the zero value of a struct field constructs, in any order |
| StructOrder.ContainsExactly | compiler/typescript-emitter.go:402-404 | one text contains another if and only if it is that text with something in front and something behind |
| StructOrder.ZeroConstructs | compiler/typescript-emitter.go:402-404 | the zero value `new N()` constructs N and no struct whose name is part of that name |
| StructOrder.StructSorter.Visit | compiler/typescript-emitter.go:366-384 | the structs sorted so far are distinct, are those visited, and stand behind what they construct; those added are led to by the one visited |
| StructOrder.SortedStructDecls | compiler/typescript-emitter.go:350-390 | a permutation in which every struct stands behind those its zero value constructs, except the ones that lead back to it, and in front of it only structs that it or one declared before it leads to |
| Stripper.StripTypeScriptCommentsAndStrings | compiler/override-facts.go:456-550 | the loop computes `Strip` |
| Stripper.StripProperties | compiler/override-facts.go:456-550 | same length, newlines in place, each character kept or blanked, no quote, no `//` and no `/*` left, and a second pass changes nothing |
| Stripper.StripDivided | compiler/override-facts.go:456-550 | for every division of a text into code, comments and strings, code is kept and the rest is blanked up to its newlines |
| Stripper.Division | compiler/override-facts.go:456-550 | every text has such a division |
| ImportAliases.ImportTable.UniqueImportAlias | compiler/lowering.go:491-502 | ends with the name if it is usable, that is, not reserved and the alias of no other package, else with the first usable numbered name from 2 on |
| ImportAliases.ImportTable.Record | compiler/lowering.go:268-289 | the import is added at the end with its type-only flag, unless the alias is listed; no alias changes its package, no package loses its alias |
| ImportAliases.ImportTable.Add | compiler/lowering.go:441-473 | the new import list is exactly what `Adds` says: for generated code the old list when the package is known; otherwise one more import under the alias chosen for the requested name, type-only exactly when generated code asks for that, unless the alias is listed |
| ImportAliases.ImportsOf | compiler/lowering.go:245-308 | any sequence of imports: the list is what the requests lead to one after the other, the aliases are distinct and not reserved, and the alias of a package is that of its newest import |
| ImportAliases.MadeOnce | compiler/lowering.go:245-308 | the requests determine the imports |
| ImportAliases.TypeOnlyExactly | compiler/lowering.go:441-473 | every import was added by one of the requests, for its package, and is type-only if and only if that request comes from generated code that needs only types |
| ImportAliases.DeclaredImported | compiler/lowering.go:245-291 | every declared package has an import under the alias chosen for its name, which is type-only only if a type-only request of generated code in front of the declaration put that alias there |
| WideIntegers.ShiftIsMultiplication | compiler/lowering.go:8738-8743 | for every operand and shift, the product modulo 2^64 is the shift of the converted operand, also when the conversion is dropped |
| WideIntegers.AddIsOrExactly | compiler/lowering.go:8767-8774 | adding y agrees with or for every shifted left operand if and only if y is below 2^s |
| WideIntegers.AddedExactly | compiler/lowering.go:8767-8774 | an addition is emitted exactly for shifts from 32 on that are no smaller than the width of the argument of a call with one integer argument, and of the operand itself otherwise |
| WideIntegers.OrFormCorrect | compiler/lowering.go:8767-8774 | what is emitted is the or for all left operands and shifts, for every value below 2 to the width of its own type, and for a call with an integer argument below 2 to the width of the argument |
| WideIntegers.OrFormExactly | compiler/lowering.go:8767-8774 | for every operand: what is emitted is the or for all x if and only if the shift is below 32 or below the width looked at, or the value is below 2^s |
| WideIntegers.SignedOperandCarries | compiler/lowering.go:8828-8835 | counterexample: a negative signed argument |
| Quotients.TruncatedQuotient | compiler/lowering.go:7471-7473 | for all integers below 2^53 in size, truncating the nearest double to the quotient is Go's quotient |
| Quotients.UnsignedQuotient | compiler/lowering.go:5119-5127 | for unsigned operands of at most 32 bits, the shifted form is the quotient |
| Quotients.OverflowExactly | compiler/lowering.go:5119-5127 | the quotient needs no wrapping except for the most negative value divided by -1 |

## Left out

- Text of statements and expressions, declarations, indentation and type annotations: the target is a syntax tree.
- `defer`, `recover`, `select`, type switches, parallel assignment and function literals inside lists with gotos.
- Awaits in emitted calls and callbacks: the lowering is modelled without suspension.
- Named results and bare returns in functions that have results: a return gives its value.
- Source labels are compared as they are written; renaming of reserved words is not modelled.
- Declarations in a statement list that the lowering hoists in front of a state machine or a labelled loop.
- Bounds on the exponent of doubles in `Quotients`: quotients of integers below 2^53 are far from both ends.
- The runtime helpers (64-bit arithmetic, channels, iterators): 64-bit operations are taken to be modular, and iterators are arbitrary resumable functions.
- Loading of packages, `go/types` and `go/ast`: call edges, implementation edges, call sites and resolved labels are given. Which semantic function an object resolves to (itself, its origin or its full name) is one map.
- Diagnostics and cancellation inside the inference loops, and the texts of the reasons that are recorded with async functions.
- Reading and writing the manifest as JSON, and file permissions: a manifest file is whole or not a manifest.
- Quoting of text that is not valid UTF-8.
- Normalisation of the request, the choice of the recorded fields of a node and a request, and the guard of the early replay: keys are taken over arbitrary recorded fields.
- Emission itself: any function of the request, the import closure, the async names that the closure can use and the `reflect` flag. Which names a closure can use and which paths are written are functions of the closure.
- `compiler/override-facts.go` beyond the stripper, protobuf bindings, embedded files, commands, and the `gs/` runtime.
- LoweringTheorems.FunctionPreserved: asks for `FaithfulIn`, because the lowering loses the meaning elsewhere (see "Where the code falls short").
- LoweringTheorems.OutputPreserved: asks for `FaithfulIn` for the same reason; without it `ChunkCaptures` and `KeptExactly` say what the code of each part does.
- CaptureTheorems.BreakKeptExactly: about one state machine or labelled loop and the first branch of the run that is captured; what follows that branch is part of the statement, and what several parts do one behind the other follows from `ChunkCaptures` for each.
- AsyncInference.SemanticModel.CloseOverInterfaces: closure over anonymous edges asks that implementation is transitive among the collected edges.
- AsyncLocality.SameInference: asks that calls name functions by the object they are registered with, and that implementation is transitive among the collected edges.
- CacheCompile.Compile: which of its own files a compile that fails half way has written is not stated.
- Spans.OneShapeScoped: one way only. The four kinds of lists in `Crossings` are never in scope; some lists of other shapes are, such as a loop whose body is a state machine with crossing gotos, and `PlacedExactly` decides those.
- The side-effect flag of an import: it is the opposite of the type-only flag.
