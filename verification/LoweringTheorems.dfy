/** What the lowering of a function body promises its caller. */
module LoweringTheorems {
  import opened GoSource
  import opened JsTarget
  import opened GotoAnalysis
  import opened Lowering
  import opened SourceChecks
  import opened Sublists
  import opened Simulation
  import opened LoweringProof
  import opened Scopes
  import opened Placement
  import Spans

  // ----- function bodies -----

  /** What a caller observes of a function. */
  datatype Result = Hangs | Returns(x: Val, st: Store) | Escapes

  function SourceResult(o: Outcome): Result
  {
    match o
    case Diverge => Hangs
    case Done(Normal, st) => Returns(Undefined, st)
    case Done(Returned(v), st) => Returns(ResultVal(v), st)
    case _ => Escapes
  }

  function TargetResult(o: JOutcome): Result
  {
    match o
    case JDiverge => Hangs
    case JDone(JNormal, ts) => Returns(Undefined, ts.user)
    case JDone(JReturned(x), ts) => Returns(x, ts.user)
    case _ => Escapes
  }

  function LowerFunction(items: seq<Item>, hasResult: bool): Low
  {
    LowerFrom(FunctionCtx(hasResult), items, 0, 0)
  }

  const TOP_FLOW: Flow := Flow(false, false, false, false)

  ghost predicate SameResult(items: seq<Item>, hasResult: bool)
  {
    forall st: Store ::
      TargetResult(JRun(LowerFunction(items, hasResult).code, JState(st, map[]))) == SourceResult(RunFrom(items, 0, st))
  }

  /** Nothing surrounds a function body. */
  lemma {:induction false} TopReady(items: seq<Item>, hasResult: bool)
    requires Distinct(LabelsIn(items))
    ensures Ready(FunctionCtx(hasResult), OUTSIDE, LabelsIn(items), 0) && Standing(items, 0)
    ensures Exact(FunctionCtx(hasResult), OUTSIDE, TOP_SCOPE, GotosIn(items))
  {
  }

  /** The result of emitted code that follows the source. */
  lemma {:induction false} FollowsResult(hasResult: bool, ts: JState, src: Outcome, r: JOutcome)
    requires Follows(FunctionCtx(hasResult), 0, ts, src, Ends(), r) && Lands(r, {}, OUTSIDE)
    ensures TargetResult(r) == SourceResult(src)
  {
  }

  /** Without a diagnostic and without an early error in the output, the lowered function does
      what the source does: same result, same store, or neither terminates. */
  lemma {:induction false} OutputPreserved(items: seq<Item>, hasResult: bool)
    requires Distinct(LabelsIn(items)) && SaneIn(items, hasResult) && FaithfulIn(TOP_FLOW, items)
    requires Good(LowerFunction(items, hasResult), OUTSIDE)
    ensures SameResult(items, hasResult)
  {
    var ctx, code := FunctionCtx(hasResult), LowerFunction(items, hasResult).code;
    hide LowerFrom, LegalSeq, SaneIn, FaithfulFrom, LabelsIn, GotosIn, Ready, Follows, RunFrom, JRun;
    assert FlowOf(ctx) == TOP_FLOW;
    TopReady(items, hasResult);
    forall st: Store ensures TargetResult(JRun(code, JState(st, map[]))) == SourceResult(RunFrom(items, 0, st)) {
      var ts := JState(st, map[]);
      SimFrom(ctx, OUTSIDE, items, 0, 0, ts);
      LegalSeqLands(code, OUTSIDE, ts);
      FollowsResult(hasResult, ts, RunFrom(items, 0, st), JRun(code, ts));
    }
  }

  /** The lowering of a function gives no diagnostic and no early error if and only if every goto
      stands inside the state machine, the loop or the block of its label, every labelled branch
      inside what it names, and nothing leaves a range-over-func body. */
  lemma {:induction false} PlacedExactly(items: seq<Item>, hasResult: bool)
    requires Distinct(LabelsIn(items))
    ensures Good(LowerFunction(items, hasResult), OUTSIDE) <==> ScopedIn(items, TOP_SCOPE)
  {
    hide LowerFrom, LegalSeq, LabelsIn, GotosIn, Ready, ScopedFrom, Exact;
    TopReady(items, hasResult);
    FromExact(FunctionCtx(hasResult), OUTSIDE, items, 0, 0, TOP_SCOPE);
  }

  /** For all lists, by conditions on the source alone: either a diagnostic or an early
      error, exactly when something is out of scope, or code that does what the source does. */
  lemma {:induction false} FunctionPreserved(items: seq<Item>, hasResult: bool)
    requires Distinct(LabelsIn(items)) && SaneIn(items, hasResult) && FaithfulIn(TOP_FLOW, items)
    ensures Good(LowerFunction(items, hasResult), OUTSIDE) <==> ScopedIn(items, TOP_SCOPE)
    ensures ScopedIn(items, TOP_SCOPE) ==> SameResult(items, hasResult)
  {
    hide LowerFrom, SaneIn, FaithfulFrom, ScopedFrom, SameResult, Good;
    PlacedExactly(items, hasResult);
    if ScopedIn(items, TOP_SCOPE) { OutputPreserved(items, hasResult); }
  }

  /** Every list of the function has its gotos in one shape: all in one state machine; or they make
      loops and blocks that do not cross. There is no diagnostic and no early error, and the code
      does what the source does. */
  lemma {:induction false} OneShapePreserved(items: seq<Item>, hasResult: bool)
    requires Distinct(LabelsIn(items)) && SaneIn(items, hasResult) && Spans.ShapelyIn(items, TOP_SCOPE, TOP_FLOW)
    ensures Good(LowerFunction(items, hasResult), OUTSIDE) && SameResult(items, hasResult)
  {
    hide LowerFrom, SaneIn, FaithfulFrom, ScopedFrom, SameResult, Good, LabelsIn, Spans.ShapelyIn;
    Spans.ListShapely(items, TOP_SCOPE, TOP_FLOW);
    FunctionPreserved(items, hasResult);
  }

  // ----- a loop with a block behind it -----

  function JumpIf(cond: Store -> (bool, Store), l: Label): Item
  {
    Item(None, If(cond, [Item(None, Goto(l))], []))
  }

  /** `L: a; if c { goto L }; if d { goto M }; b; M: e` */
  function LoopThenBlock(a: Store -> Store, b: Store -> Store, e: Store -> Store, c: Store -> (bool, Store),
                         d: Store -> (bool, Store)): seq<Item>
  {
    [Item(Some("L"), Act(a)), JumpIf(c, "L"), JumpIf(d, "M"), Item(None, Act(b)), Item(Some("M"), Act(e))]
  }

  lemma {:induction false} JumpIfGotos(c: Store -> (bool, Store), l: Label)
    ensures GotosOf(JumpIf(c, l).stmt) == [l]
  {
    var jump := [Item(None, Goto(l))];
    assert ItemGotos(jump[0]) == [l];
    assert jump[1..] == [];
    assert GotosIn(jump) == [l] && GotosIn([]) == [];
  }

  lemma {:induction false} JumpBranches(c: Store -> (bool, Store), l: Label, m: Label)
    ensures !ItemBranchesTo(JumpIf(c, l), m)
  {
    var jump := [Item(None, Goto(l))];
    assert !ItemBranchesTo(jump[0], m);
    assert !BranchesToIn(jump, m) && !BranchesToIn([], m);
  }

  lemma {:induction false} JumpIfFine(c: Store -> (bool, Store), l: Label)
    ensures Sane(JumpIf(c, l).stmt, false) && LabelsOf(JumpIf(c, l).stmt) == multiset{}
    ensures forall f :: Survives(f, JumpIf(c, l).stmt)
  {
    var jump := [Item(None, Goto(l))];
    hide SaneIn, FreeBreakIn, FreeContinueIn, LabelsIn, ItemFreeBreak, ItemFreeContinue;
    GotoFine(l);
    NoneLeaves(jump);
    NoneLeaves([]);
  }

  lemma {:induction false} GotoFine(l: Label)
    ensures !ItemFreeBreak(Item(None, Goto(l))) && !ItemFreeContinue(Item(None, Goto(l)))
    ensures SaneIn([Item(None, Goto(l))], false) && SaneIn([], false)
    ensures LabelsIn([Item(None, Goto(l))]) == multiset{} && LabelsIn([]) == multiset{}
  {
    LabelsOne(Item(None, Goto(l)));
  }

  lemma {:induction false} NoneLeaves(items: seq<Item>)
    requires forall k :: 0 <= k < |items| ==> !ItemFreeBreak(items[k]) && !ItemFreeContinue(items[k])
    ensures !FreeBreakIn(items) && !FreeContinueIn(items)
  {
  }

  lemma {:induction false} ThenBlockJumps(items: seq<Item>, a: Store -> Store, b: Store -> Store, e: Store -> Store,
                                          c: Store -> (bool, Store), d: Store -> (bool, Store))
    requires items == LoopThenBlock(a, b, e, c, d)
    ensures forall g: nat, p: nat :: Spans.Jumps(items, g, p) ==> (g == 1 && p == 0) || (g == 2 && p == 4)
    ensures Spans.Jumps(items, 1, 0) && Spans.Jumps(items, 2, 4)
  {
    JumpIfGotos(c, "L");
    JumpIfGotos(d, "M");
  }

  /** An inner list without labels: its gotos need only be in scope. */
  lemma {:induction false} NoLabelsShapely(l: Label, sc: Scope, f: Flow)
    requires l in sc.machine || l in sc.open
    ensures Spans.ShapelyIn([Item(None, Goto(l))], sc, f) && Spans.ShapelyIn([], sc, f)
  {
    var items := [Item(None, Goto(l))];
    forall s: seq<Item>, k: nat, place: Spans.Place | s == items || s == [] ensures !Spans.InsideMachine(s, k, place) {
      NoMachine(s, k, place);
    }
    assert Spans.Targeted(items) == {};
  }

  lemma {:induction false} NoMachine(items: seq<Item>, k: nat, place: Spans.Place)
    requires |items| <= 1 && forall k :: 0 <= k < |items| ==> items[k].lab.None?
    ensures !Spans.InsideMachine(items, k, place)
  {
  }

  lemma {:induction false} ThenBlockItem(items: seq<Item>, a: Store -> Store, b: Store -> Store, e: Store -> Store,
                                         c: Store -> (bool, Store), d: Store -> (bool, Store), k: nat)
    requires items == LoopThenBlock(a, b, e, c, d) && k < |items|
    ensures Spans.ShapelyItem(items[k], Spans.LosesLabel(items, k), Spans.StmtScope(items, k, TOP_SCOPE), TOP_FLOW)
  {
    hide Spans.InsideMachine, Spans.Jumps, Spans.ShapelyIn, Spans.LosesLabel;
    ThenBlockJumps(items, a, b, e, c, d);
    Spans.JumpsOwn(items, 0);
    Spans.JumpsOwn(items, 4);
    assert items[0].lab.value in Spans.Targeted(items) && items[4].lab.value in Spans.Targeted(items);
    var sc := Spans.StmtScope(items, k, TOP_SCOPE);
    assert sc.(breaks := sc.breaks + {}) == sc;
    if k == 1 { NoLabelsShapely("L", sc, TOP_FLOW); } else if k == 2 { NoLabelsShapely("M", sc, TOP_FLOW); }
  }

  lemma {:induction false} ThenBlockOneShape(items: seq<Item>, a: Store -> Store, b: Store -> Store,
                                             e: Store -> Store, c: Store -> (bool, Store), d: Store -> (bool, Store))
    requires items == LoopThenBlock(a, b, e, c, d)
    ensures Spans.OneShape(items)
  {
    hide Spans.Jumps, Spans.Spanned;
    ThenBlockJumps(items, a, b, e, c, d);
    Spans.DividedSpanned(items, [0, 2, 5]);
  }

  lemma {:induction false} ActSurvives(f: Flow, a: Store -> Store)
    ensures Survives(f, Act(a))
  {
  }

  lemma {:induction false} ThenBlockShapely(items: seq<Item>, a: Store -> Store, b: Store -> Store, e: Store -> Store,
                                            c: Store -> (bool, Store), d: Store -> (bool, Store))
    requires items == LoopThenBlock(a, b, e, c, d)
    ensures Spans.ShapelyIn(items, TOP_SCOPE, TOP_FLOW)
  {
    hide Spans.InsideMachine, Spans.OneShape, Spans.ShapelyItem, Spans.LosesLabel, Spans.StmtScope, Spans.Repeats,
         FreeBreak, FreeContinue;
    ThenBlockOneShape(items, a, b, e, c, d);
    JumpIfFine(c, "L");
    JumpIfFine(d, "M");
    ActSurvives(TOP_FLOW, a); ActSurvives(TOP_FLOW, b); ActSurvives(TOP_FLOW, e);
    forall k | 0 <= k < |items| ensures items[k].lab != Some(ENTRY) && Survives(TOP_FLOW, items[k].stmt) { }
    forall k | 0 <= k < |items|
      ensures Spans.ShapelyItem(items[k], Spans.LosesLabel(items, k), Spans.StmtScope(items, k, TOP_SCOPE), TOP_FLOW)
    {
      ThenBlockItem(items, a, b, e, c, d, k);
    }
  }

  lemma {:induction false} ThenBlockSane(items: seq<Item>, a: Store -> Store, b: Store -> Store, e: Store -> Store,
                                         c: Store -> (bool, Store), d: Store -> (bool, Store))
    requires items == LoopThenBlock(a, b, e, c, d)
    ensures SaneIn(items, false) && Distinct(LabelsIn(items))
  {
    hide LabelsIn, LabelsOf, Sane, BranchesTo;
    JumpIfFine(c, "L");
    JumpIfFine(d, "M");
    assert LabelsIn(items) == multiset{"L", "M"} by {
      forall k | 0 <= k < |items| { LabelsOne(items[k]); }
      assert items == [items[0]] + ([items[1]] + ([items[2]] + ([items[3]] + [items[4]])));
      LabelsConcat([items[3]], [items[4]]);
      LabelsConcat([items[2]], [items[3]] + [items[4]]);
      LabelsConcat([items[1]], [items[2]] + ([items[3]] + [items[4]]));
      LabelsConcat([items[0]], [items[1]] + ([items[2]] + ([items[3]] + [items[4]])));
      ActFine(a, "L"); ActFine(b, "L"); ActFine(e, "L");
    }
    forall p, k | 0 <= p < |items| && 0 <= k < |items| && p != k && items[p].lab.Some?
      ensures !ItemBranchesTo(items[k], items[p].lab.value)
    {
      var m := items[p].lab.value;
      JumpBranches(c, "L", m);
      JumpBranches(d, "M", m);
      ActFine(a, m); ActFine(b, m); ActFine(e, m);
    }
    ActFine(a, "L"); ActFine(b, "L"); ActFine(e, "L");
  }

  lemma {:induction false} ActFine(a: Store -> Store, m: Label)
    ensures LabelsOf(Act(a)) == multiset{} && !BranchesTo(Act(a), m) && Sane(Act(a), false)
  {
  }

  /** A loop of gotos and behind it a block of gotos: the code does what the source does, whatever the
      statements and conditions are. */
  lemma {:induction false} LoopThenBlockPreserved(a: Store -> Store, b: Store -> Store, e: Store -> Store,
                                                  c: Store -> (bool, Store), d: Store -> (bool, Store))
    ensures var items := LoopThenBlock(a, b, e, c, d);
      Good(LowerFunction(items, false), OUTSIDE) && SameResult(items, false)
  {
    hide LowerFrom, SaneIn, SameResult, Good, LabelsIn, Spans.ShapelyIn;
    var items := LoopThenBlock(a, b, e, c, d);
    ThenBlockSane(items, a, b, e, c, d);
    ThenBlockShapely(items, a, b, e, c, d);
    OneShapePreserved(items, false);
  }

  // ----- functions without gotos -----

  lemma {:induction false} NoGotosFaithful(f: Flow, items: seq<Item>)
    requires GotosIn(items) == []
    ensures FaithfulFrom(f, items, 0)
    decreases Size(items), 1
  {
    hide GotosIn, GotosOf, Faithful, FaithfulFrom, Size;
    forall k | 0 <= k < |items| ensures Faithful(f, items[k].stmt) {
      NoGotosAt(items, k);
      SizeAt(items, k);
      NoGotosStmt(f, items[k].stmt);
    }
    NoGotosOwn(items);
    PlainFaithful(f, items, 0);
  }

  lemma {:induction false} NoGotosStmt(f: Flow, s: Stmt)
    requires GotosOf(s) == []
    ensures Faithful(f, s)
    decreases StmtSize(s), 0
  {
    hide FaithfulFrom;
    match s
    case Block(body) => NoGotosFaithful(f, body);
    case If(_, thn, els) => NoGotosFaithful(f, thn); NoGotosFaithful(f, els);
    case For(ranged, _, _, _, body) => NoGotosFaithful(ForFlow(f, !ranged && NeedsLoopLabel(body)), body);
    case Switch(_, clauses) => NoGotosClauses(ClauseFlow(f), clauses);
    case RangeFunc(_, _, body) => NoGotosFaithful(RangeFlow(f), body);
    case _ =>
  }

  lemma {:induction false} NoGotosClauses(f: Flow, clauses: seq<Clause>)
    requires GotosInClauses(clauses) == []
    ensures FaithfulClauses(f, clauses)
    decreases ClausesSize(clauses), 0
  {
    hide FaithfulFrom;
    if clauses != [] {
      NoGotosFaithful(f, clauses[0].body);
      NoGotosClauses(f, clauses[1..]);
    }
  }

  /** Without gotos there is never a diagnostic. */
  lemma {:induction false} NoGotosOk(ctx: Ctx, items: seq<Item>, idx: nat, n: nat)
    requires GotosIn(items) == []
    ensures LowerFrom(ctx, items, idx, n).ok
    decreases Size(items), 2, if idx < |items| then |items| - idx else 0
  {
    hide GotosIn, GotosOf, LowerItem, Size, ChunkAt;
    if idx < |items| {
      NoGotosOwn(items);
      NoOwnPlain(items, idx);
      NoGotosAt(items, idx);
      SizeAt(items, idx);
      NoGotosItemOk(ctx, items[idx], n);
      NoGotosOk(ctx, items, idx + 1, LowerItem(ctx, items[idx], n).next);
    }
  }

  lemma {:induction false} NoGotosItemOk(ctx: Ctx, it: Item, n: nat)
    requires GotosOf(it.stmt) == []
    ensures LowerItem(ctx, it, n).ok
    decreases StmtSize(it.stmt), 1, 0
  {
    hide LowerFrom, LowerClauses;
    match it.stmt
    case Block(body) => NoGotosOk(ctx, body, 0, n);
    case If(_, thn, els) =>
      NoGotosOk(ctx, thn, 0, n);
      NoGotosOk(ctx, els, 0, LowerFrom(ctx, thn, 0, n).next);
    case For(ranged, _, _, _, body) => NoGotosOk(ForCtx(ctx, !ranged && NeedsLoopLabel(body), n), body, 0, n + 1);
    case Switch(_, clauses) => NoGotosClausesOk(ClauseCtx(ctx), clauses, n);
    case RangeFunc(_, _, body) => NoGotosOk(RangeCtx(ctx, n), body, 0, n + 1);
    case _ =>
  }

  lemma {:induction false} NoGotosClausesOk(ctx: Ctx, clauses: seq<Clause>, n: nat)
    requires GotosInClauses(clauses) == []
    ensures LowerClauses(ctx, clauses, n).2
    decreases ClausesSize(clauses), 0, 0
  {
    hide LowerFrom;
    if clauses != [] {
      NoGotosOk(ctx, clauses[0].body, 0, n);
      NoGotosClausesOk(ctx, clauses[1..], LowerFrom(ctx, clauses[0].body, 0, n).next);
    }
  }

  /** Without gotos there is never a diagnostic, and the output is free of early errors exactly
      when every branch stays in scope, that is, no labelled branch leaves a range-over-func body. */
  lemma {:induction false} LegalIffScoped(items: seq<Item>, hasResult: bool)
    requires GotosIn(items) == [] && Distinct(LabelsIn(items))
    ensures var low := LowerFunction(items, hasResult);
      low.ok && (LegalSeq(low.code, OUTSIDE) <==> ScopedIn(items, TOP_SCOPE))
  {
    hide LowerFrom, LegalSeq, ScopedFrom, GotosIn;
    NoGotosOk(FunctionCtx(hasResult), items, 0, 0);
    PlacedExactly(items, hasResult);
  }

  /** Range-over-func loops, in any nesting with other loops, switches and conditionals: the
      callback form computes what the structured loop computes, for every iterator that stops
      once its yield returned false. */
  lemma {:induction false} RangeLoopsPreserved(items: seq<Item>, hasResult: bool)
    requires GotosIn(items) == [] && Distinct(LabelsIn(items))
    requires SaneIn(items, hasResult) && ScopedIn(items, TOP_SCOPE)
    ensures var low := LowerFunction(items, hasResult); low.ok && LegalSeq(low.code, OUTSIDE)
    ensures SameResult(items, hasResult)
  {
    hide LowerFrom, LegalSeq, ScopedFrom, FaithfulFrom, GotosIn, SaneIn, SameResult;
    NoGotosFaithful(TOP_FLOW, items);
    FunctionPreserved(items, hasResult);
  }
}
