/** Where the lowering does not keep the meaning of a list, and exactly when it does. */
module Deviations {
  import opened Iteration
  import opened GoSource
  import opened JsTarget
  import opened GotoAnalysis
  import opened Lowering
  import opened SourceChecks
  import opened Sublists
  import opened ListRuns
  import opened Simulation
  import opened Regions
  import opened LoweringProof
  import opened LoweringTheorems
  import opened Placement
  import opened Scopes
  import opened Captures
  import opened CaptureTheorems
  import Crossings
  import Spans

  const L: Label := "L"

  // ----- plain breaks and continues inside a state machine -----

  /** `goto l; l: s; goto l` */
  function Machine(l: Label, s: Stmt): seq<Item>
  {
    [Item(None, Goto(l)), Item(Some(l), s), Item(None, Goto(l))]
  }

  /** Statements that leave the list. */
  predicate Simple(s: Stmt)
  {
    s.Break? || s.Continue? || s.Return?
  }

  lemma {:induction false} MachineChunk(l: Label, s: Stmt)
    requires GotosOf(s) == []
    ensures ChunkAt(Machine(l, s), 0) == Cluster(1, 2)
  {
    var items := Machine(l, s);
    assert GotoAt(items, 0, l) && GotoAt(items, 2, l);
    assert items[1].lab == Some(l);
    assert JumpsBack(items);
    assert OwnGotoAt(items, 0) && OwnGotoAt(items, 2);
    assert TargetAt(items, 1) && !TargetAt(items, 0);
    assert FirstTarget(items, 0) == 1;
    assert LastTouched(items, 3) == 2;
  }

  function MachineCode(ctx: Ctx, l: Label, s: Stmt, n: nat): (seq<string>, seq<JCase>, Ctx)
  {
    var inner := ctx.(state := Some(StateRef({l}, n)));
    var go := GoState(n, l);
    ([ENTRY, l], [JCase(go + (go + [JBreak])),
                  JCase((LowerStmt(inner, s, n + 1).code + go) + [JBreakTo(GotoLoop(n)), JBreak])], inner)
  }

  lemma {:induction false} UnlabelledChunk(items: seq<Item>, idx: nat)
    requires idx < |items| && forall k :: 0 <= k < |items| ==> items[k].lab.None?
    ensures ChunkAt(items, idx) == Plain
  {
  }

  lemma {:induction false} PlainLowered(ctx: Ctx, items: seq<Item>, idx: nat, n: nat)
    requires idx < |items| && ChunkAt(items, idx) == Plain && items[idx].lab.None?
    ensures var a := LowerStmt(ctx, items[idx].stmt, n);
      LowerFrom(ctx, items, idx, n) == Then(a, LowerFrom(ctx, items, idx + 1, a.next))
  {
    assert LowerChunk(ctx, items, idx, n) == LowerItem(ctx, items[idx], n) == LowerStmt(ctx, items[idx].stmt, n);
  }

  lemma {:induction false} PairLowered(ctx: Ctx, s: Stmt, l: Label, n: nat)
    requires Simple(s)
    ensures LowerFrom(ctx, [Item(None, Goto(l))], 0, n) == GotoStmts(ctx, l, n)
    ensures var r := LowerFrom(ctx, [Item(None, s), Item(None, Goto(l))], 0, n);
      r == Low(LowerStmt(ctx, s, n).code + GotoStmts(ctx, l, n).code, n, GotoStmts(ctx, l, n).ok)
  {
    var one, two := [Item(None, Goto(l))], [Item(None, s), Item(None, Goto(l))];
    UnlabelledChunk(one, 0);
    UnlabelledChunk(two, 0);
    UnlabelledChunk(two, 1);
    PlainLowered(ctx, one, 0, n);
    PlainLowered(ctx, two, 0, n);
    PlainLowered(ctx, two, 1, n);
  }

  lemma {:induction false} MachineLowered(ctx: Ctx, l: Label, s: Stmt, n: nat)
    requires Simple(s)
    ensures var (values, cases, _) := MachineCode(ctx, l, s, n);
      LowerFrom(ctx, Machine(l, s), 0, n).code == ClusterCode(n, values, cases)
  {
    var items, inner := Machine(l, s), MachineCode(ctx, l, s, n).2;
    MachineChunk(l, s);
    assert LabelsBetween(items, 1, 2) == {l} by { assert items[1].lab == Some(l); }
    assert StateCtx(ctx, items, 1, 2, n) == inner;
    var head := items[0..1];
    assert head == [Item(None, Goto(l))];
    var seg := Segment(items, 1, 3);
    assert seg == [Item(None, s), Item(None, Goto(l))];
    PairLowered(inner, s, l, n + 1);
    assert NextLabel(items, 2, 2) == 3;
    var (values, cases, _) := MachineCode(ctx, l, s, n);
    var segs, t := LowerSegments(inner, items, 1, 2, n, n + 1), ClusterTable(ctx, items, 0, 1, 2, n);
    assert segs.values == [l] && segs.cases == [cases[1]];
    assert t.values == values && t.cases == cases;
    assert LowerChunk(ctx, items, 0, n) == LowerCluster(ctx, items, 0, 1, 2, n);
    assert LowerFrom(ctx, items, 3, LowerChunk(ctx, items, 0, n).next).code == [];
  }

  lemma {:induction false} MachineSource(l: Label, s: Stmt, st: Store)
    requires Simple(s)
    ensures RunFrom(Machine(l, s), 0, st) == Exec(s, None, st)
  {
    var items := Machine(l, s);
    RunUnfold(items, 0, st);
    assert items[1].lab == Some(l);
    assert IndexOf(items, l) == 1;
    RunUnfold(items, 1, st);
  }

  /** One turn of the dispatch. */
  lemma {:induction false} MachineTurn(n: nat, values: seq<string>, cases: seq<JCase>, x: JState, k: nat)
    requires FirstCase(values, Lookup(x.vars, GotoState(n)), 0) == k < |cases| == |values|
    requires var r := JRun(cases[k].body, x); r.JDone? ==> r.comp != JNormal
    ensures JLoopStep(ClusterLoop(n, values, cases), {GotoLoop(n)}, x) ==
      (match JRun(cases[k].body, x)
       case JDiverge => Stop(JDiverge)
       case JDone(c, y) =>
         if c == JBroke then Stop(JDone(JNormal, y))
         else if JResumes(c, {GotoLoop(n)}) then Next(y) else Stop(JDone(c, y)))
  {
    var switch := JSwitch(ByVar(GotoState(n), values), cases);
    var r := JRun(cases[k].body, x);
    assert PickCase(switch.sel, x) == (k, x);
    assert JExec(switch, {}, x) == JRunCases(cases, k, x) ==
      if r.JDone? && r.comp == JBroke then JDone(JNormal, r.ts) else r;
    var e := JExec(switch, {}, x);
    assert [switch, JBreak][1..] == [JBreak];
    if e.JDone? { RunOne(JBreak, e.ts); }
    assert x.(user := x.user) == x;
    if r.JDone? { assert r.ts.(user := NOTHING(r.ts.user)) == r.ts; }
  }

  function ClusterLoop(n: nat, values: seq<string>, cases: seq<JCase>): JS
  {
    JLoop(NOTHING, FOREVER, NOTHING, [JSwitch(ByVar(GotoState(n), values), cases), JBreak])
  }

  function InState(ts: JState, n: nat): JState
  {
    ts.(vars := ts.vars[GotoState(n) := Str(ENTRY)][GotoState(n) := Str(L)])
  }

  lemma {:induction false} GoRuns(n: nat, l: Label, rest: seq<JS>, x: JState)
    ensures JRun(GoState(n, l) + rest, x) ==
      JDone(JContinuedTo(GotoLoop(n)), x.(vars := x.vars[GotoState(n) := Str(l)]))
  {
    var code, y := GoState(n, l) + rest, x.(vars := x.vars[GotoState(n) := Str(l)]);
    assert JExec(code[0], {}, x) == JDone(JNormal, y);
    assert code[1..] == [JContinueTo(GotoLoop(n))] + rest;
    assert JExec(code[1..][0], {}, y) == JDone(JContinuedTo(GotoLoop(n)), y);
  }

  /** How the loop ends when its branch completes with `r`. */
  ghost function Left(r: JOutcome): JOutcome
  {
    match r
    case JDiverge => JDiverge
    case JDone(c, x) => if c == JBroke then JDone(JNormal, x) else if c == JContinued then JDiverge else JDone(c, x)
  }

  ghost predicate Outer(c: JComp, n: nat)
  {
    c == JBroke || c == JContinued || c.JReturned? || (c.JBrokeTo? && c.l.LoopName?) ||
      (c.JContinuedTo? && c.l.LoopName?)
  }

  lemma {:induction false} MachineLoops(n: nat, values: seq<string>, cases: seq<JCase>, t1: JState, t2: JState,
                                        r: JOutcome)
    requires |cases| == |values| == 2 && r.JDone? && Outer(r.comp, n)
    requires FirstCase(values, Lookup(t1.vars, GotoState(n)), 0) == 0
    requires FirstCase(values, Lookup(t2.vars, GotoState(n)), 0) == 1
    requires JRun(cases[0].body, t1) == JDone(JContinuedTo(GotoLoop(n)), t2)
    requires JRun(cases[1].body, t2) == r && r.ts == t2
    ensures Loop(JLoopStepFn(ClusterLoop(n, values, cases), {GotoLoop(n)}), t1, JDiverge) == Left(r)
  {
    hide JRun, JExec, FirstCase, Lookup;
    var loop := ClusterLoop(n, values, cases);
    var step := JLoopStepFn(loop, {GotoLoop(n)});
    MachineTurn(n, values, cases, t1, 0);
    MachineTurn(n, values, cases, t2, 1);
    assert step(t1) == JLoopStep(loop, {GotoLoop(n)}, t1) && step(t2) == JLoopStep(loop, {GotoLoop(n)}, t2);
    LoopUnfold(step, t1, JDiverge);
    LoopUnfold(step, t2, JDiverge);
    if r.comp == JContinued { Stuck(step, t2); }
  }

  lemma {:induction false} ClusterRuns(n: nat, values: seq<string>, cases: seq<JCase>, ts: JState, t1: JState)
    requires values != [] && t1 == ts.(vars := ts.vars[GotoState(n) := Str(values[0])])
    ensures JRun(ClusterCode(n, values, cases), ts) ==
      (match Loop(JLoopStepFn(ClusterLoop(n, values, cases), {GotoLoop(n)}), t1, JDiverge)
       case JDiverge => JDiverge
       case JDone(c, x) => JDone(if c == JBrokeTo(GotoLoop(n)) then JNormal else c, x))
  {
    var code, loop := ClusterCode(n, values, cases), ClusterLoop(n, values, cases);
    assert JExec(code[0], {}, ts) == JDone(JNormal, t1);
    assert code[1..] == [code[1]];
    RunOne(code[1], t1);
    assert {} + {GotoLoop(n)} == {GotoLoop(n)};
    assert t1.(user := NOTHING(t1.user)) == t1;
    assert JExec(loop, {GotoLoop(n)}, t1) == Loop(JLoopStepFn(loop, {GotoLoop(n)}), t1, JDiverge);
  }

  function Emit(ctx: Ctx, s: Stmt): JS
    requires s.Break? || s.Continue?
  {
    if s.Break? then BreakStmt(ctx) else ContinueStmt(ctx)
  }

  /** The emitted machine is left by what its plain branch is emitted as. */
  lemma {:induction false} MachineRuns(ctx: Ctx, s: Stmt, n: nat, ts: JState)
    requires s.Break? || s.Continue?
    ensures JRun(LowerFrom(ctx, Machine(L, s), 0, n).code, ts) == Left(JExec(Emit(ctx, s), {}, InState(ts, n)))
  {
    hide LowerFrom;
    var (values, cases, inner) := MachineCode(ctx, L, s, n);
    var t1, t2 := ts.(vars := ts.vars[GotoState(n) := Str(ENTRY)]), InState(ts, n);
    var r := JExec(Emit(ctx, s), {}, t2);
    MachineLowered(ctx, L, s, n);
    GoRuns(n, L, GoState(n, L) + [JBreak], t1);
    FirstIs(cases[1].body, Emit(ctx, s), t2);
    MachineLoops(n, values, cases, t1, t2, r);
    ClusterRuns(n, values, cases, ts, t1);
  }

  lemma {:induction false} FirstIs(code: seq<JS>, b: JS, ts: JState)
    requires code != [] && code[0] == b
    requires var r := JExec(b, {}, ts); r.JDone? ==> r.comp != JNormal
    ensures JRun(code, ts) == JExec(b, {}, ts)
  {
  }

  lemma {:induction false} Stuck(step: JState -> Step<JState, JOutcome>, x: JState)
    requires step(x) == Next(x)
    ensures Loop(step, x, JDiverge) == JDiverge
  {
    var inv, post := (y: JState) => y == x, (r: JOutcome) => r == JDiverge;
    forall y: JState ensures Keeps(step, inv, post, y) { }
    LoopInvariant(step, x, JDiverge, inv, post);
  }

  /** A plain break inside a state machine keeps its meaning exactly when it is emitted as a
      break to the name of the for loop or as a return. Elsewhere it only leaves the switch. */
  lemma {:induction false} BreakInMachine(ctx: Ctx, n: nat, ts: JState)
    requires ctx.loopLabel.Some? ==> ctx.loopLabel.value < n
    ensures Follows(ctx, n, ts, RunFrom(Machine(L, Break), 0, ts.user), Ends(),
                    JRun(LowerFrom(ctx, Machine(L, Break), 0, n).code, ts))
            <==> BreakLeaves(FlowOf(ctx))
  {
    hide LowerFrom, RunFrom;
    MachineSource(L, Break, ts.user);
    MachineRuns(ctx, Break, n, ts);
  }

  /** The same for a plain continue, which elsewhere repeats the dispatch for ever. */
  lemma {:induction false} ContinueInMachine(ctx: Ctx, n: nat, ts: JState)
    requires ctx.loopLabel.Some? ==> ctx.loopLabel.value < n
    ensures Follows(ctx, n, ts, RunFrom(Machine(L, Continue), 0, ts.user), Ends(),
                    JRun(LowerFrom(ctx, Machine(L, Continue), 0, n).code, ts))
            <==> ContinueLeaves(FlowOf(ctx))
  {
    hide LowerFrom, RunFrom;
    MachineSource(L, Continue, ts.user);
    MachineRuns(ctx, Continue, n, ts);
    assert ContinueLeaves(FlowOf(ctx)) <==> !ContinueStmt(ctx).JContinue?;
  }

  // ----- the three places where the plain break of a for loop is lost -----

  /** `for { goto L; L: break; goto L }`, written as a range loop or not. */
  function Spin(ranged: bool, body: seq<Item>): Stmt
  {
    For(ranged, NOTHING, FOREVER, NOTHING, body)
  }

  lemma {:induction false} SpinEnds(ranged: bool, st: Store)
    ensures Exec(Spin(ranged, Machine(L, Break)), None, st) == Done(Normal, st)
  {
    var s := Spin(ranged, Machine(L, Break));
    MachineSource(L, Break, st);
    LoopUnfold(ForStepFn(s, None), st, Diverge);
    assert ForStepFn(s, None)(st) == ForStep(s, None, st);
  }

  lemma {:induction false} NeverLeft(body: seq<JS>, labels: set<Name>, ts: JState)
    requires forall x: JState :: JRun(body, x).JDone? && JRun(body, x).comp == JNormal
    ensures JExec(JLoop(NOTHING, FOREVER, NOTHING, body), labels, ts) == JDiverge
  {
    var loop := JLoop(NOTHING, FOREVER, NOTHING, body);
    var step, inv, post := JLoopStepFn(loop, labels), (x: JState) => true, (r: JOutcome) => r == JDiverge;
    forall x: JState ensures Keeps(step, inv, post, x) {
      assert step(x) == JLoopStep(loop, labels, x);
      assert x.(user := x.user) == x;
    }
    LoopInvariant(step, ts, JDiverge, inv, post);
    assert ts.(user := NOTHING(ts.user)) == ts;
  }

  /** Where a plain break is not emitted with a name, the loop around the machine never ends. */
  lemma {:induction false} MachineSpins(ctx: Ctx, n: nat, labels: set<Name>, ts: JState)
    requires !BreakLeaves(FlowOf(ctx))
    ensures JExec(JLoop(NOTHING, FOREVER, NOTHING, LowerFrom(ctx, Machine(L, Break), 0, n).code), labels, ts) ==
      JDiverge
  {
    hide LowerFrom, Machine;
    var body := LowerFrom(ctx, Machine(L, Break), 0, n).code;
    forall x: JState ensures JRun(body, x).JDone? && JRun(body, x).comp == JNormal { MachineRuns(ctx, Break, n, x); }
    NeverLeft(body, labels, ts);
  }

  lemma {:induction false} OneStatement(ctx: Ctx, s: Stmt, n: nat)
    ensures LowerFrom(ctx, [Item(None, s)], 0, n) == LowerStmt(ctx, s, n)
  {
    UnlabelledChunk([Item(None, s)], 0);
    PlainLowered(ctx, [Item(None, s)], 0, n);
    assert LowerStmt(ctx, s, n).code + [] == LowerStmt(ctx, s, n).code;
  }

  lemma {:induction false} OneRuns(s: Stmt, st: Store)
    ensures RunFrom([Item(None, s)], 0, st) == (match Exec(s, None, st)
      case Diverge => Diverge
      case Done(c, st1) => Done(c, st1))
  {
    RunUnfold([Item(None, s)], 0, st);
    var r := ExecItem(Item(None, s), st);
    if r.Done? { RunUnfold([Item(None, s)], 1, r.st); }
  }

  lemma {:induction false} HangsInstead(s: Stmt, st: Store)
    requires Exec(s, None, st) == Done(Normal, st)
    requires JRun(LowerStmt(FunctionCtx(false), s, 0).code, JState(st, map[])) == JDiverge
    ensures !SameResult([Item(None, s)], false)
  {
    OneStatement(FunctionCtx(false), s, 0);
    OneRuns(s, st);
  }

  /** In the body of a range loop: such a loop never gets a name. */
  lemma {:induction false} BreakLostInRangeLoop()
    ensures !SameResult([Item(None, Spin(true, Machine(L, Break)))], false)
  {
    hide LowerFrom, Machine, RunFrom;
    var s, ctx := Spin(true, Machine(L, Break)), FunctionCtx(false);
    var ts := JState(map[], map[]);
    SpinEnds(true, map[]);
    MachineSpins(ForCtx(ctx, false, 0), 1, {}, ts);
    RunOne(LowerStmt(ctx, s, 0).code[0], ts);
    HangsInstead(s, map[]);
  }

  function NestedSpin(): Stmt
  {
    Spin(false, [Item(None, Block(Machine(L, Break)))])
  }

  lemma {:induction false} NestedSource(st: Store)
    ensures Exec(NestedSpin(), None, st) == Done(Normal, st)
  {
    hide RunFrom;
    var s := NestedSpin();
    MachineSource(L, Break, st);
    OneRuns(Block(Machine(L, Break)), st);
    LoopUnfold(ForStepFn(s, None), st, Diverge);
    assert ForStepFn(s, None)(st) == ForStep(s, None, st);
  }

  lemma {:induction false} NestedTarget(ts: JState)
    ensures JRun(LowerStmt(FunctionCtx(false), NestedSpin(), 0).code, ts) == JDiverge
  {
    hide LowerFrom, Machine, BackwardLabelAt;
    var s, ctx, inner := NestedSpin(), ForCtx(FunctionCtx(false), false, 0), Block(Machine(L, Break));
    var code := LowerFrom(ctx, Machine(L, Break), 0, 1).code;
    OneStatement(ctx, inner, 1);
    assert s.body[0].lab.None?;
    assert !NeedsLoopLabel(s.body) by { NoneLabelled(s.body); }
    var loop := JLoop(NOTHING, FOREVER, NOTHING, [JBlock(code)]);
    assert LowerStmt(FunctionCtx(false), s, 0).code == [loop];
    forall x: JState ensures JRun([JBlock(code)], x).JDone? && JRun([JBlock(code)], x).comp == JNormal {
      MachineRuns(ctx, Break, 1, x);
      RunOne(JBlock(code), x);
    }
    NeverLeft([JBlock(code)], {}, ts);
    RunOne(loop, ts);
  }

  lemma {:induction false} NoneLabelled(items: seq<Item>)
    requires forall k :: 0 <= k < |items| ==> items[k].lab.None?
    ensures !NeedsLoopLabel(items)
  {
  }

  /** In a nested block of the loop body: only the body itself is searched for backward gotos. */
  lemma {:induction false} BreakLostInNestedBlock()
    ensures !SameResult([Item(None, NestedSpin())], false)
  {
    NestedSource(map[]);
    NestedTarget(JState(map[], map[]));
    HangsInstead(NestedSpin(), map[]);
  }

  function SwitchSpin(): Stmt
  {
    Switch(st => (0, st), [Clause([Item(None, Spin(false, Machine(L, Break)))], false)])
  }

  lemma {:induction false} SwitchSource(st: Store)
    ensures Exec(SwitchSpin(), None, st) == Done(Normal, st)
  {
    hide RunFrom, Spin;
    var loop, clauses := Spin(false, Machine(L, Break)), SwitchSpin().clauses;
    SpinEnds(false, st);
    OneRuns(loop, st);
    assert RunClauses(clauses, 0, st) == Done(Normal, st);
  }

  lemma {:induction false} SwitchTarget(ts: JState)
    ensures JRun(LowerStmt(FunctionCtx(false), SwitchSpin(), 0).code, ts) == JDiverge
  {
    hide LowerFrom, Machine, NeedsLoopLabel;
    var s, loop := SwitchSpin(), Spin(false, Machine(L, Break));
    var inner := ClauseCtx(FunctionCtx(false));
    var named := ForCtx(inner, true, 0);
    MachineNeedsLabel();
    var body := LowerFrom(named, Machine(L, Break), 0, 1).code;
    var whole := JLabeled(LoopName(0), JLoop(NOTHING, FOREVER, NOTHING, body));
    OneStatement(inner, loop, 0);
    assert LowerStmt(inner, loop, 0).code == [whole];
    MachineSpins(named, 1, {} + {LoopName(0)}, ts);
    assert JExec(whole, {}, ts) == JDiverge;
    SwitchHangs(inner, s, whole, ts);
  }

  lemma {:induction false} SwitchHangs(inner: Ctx, s: Stmt, whole: JS, ts: JState)
    requires s == SwitchSpin() && inner == ClauseCtx(FunctionCtx(false))
    requires LowerFrom(inner, s.clauses[0].body, 0, 0).code == [whole] && JExec(whole, {}, ts) == JDiverge
    ensures JRun(LowerStmt(FunctionCtx(false), s, 0).code, ts) == JDiverge
  {
    hide LowerFrom, Spin;
    var cases := LowerClauses(inner, s.clauses, 0).0;
    assert cases[0].body == [whole] + [JBreak];
    assert JRun(cases[0].body, ts) == JDiverge;
    assert ts.(user := ts.user) == ts;
    assert JRunCases(cases, 0, ts) == JDiverge;
    var switch := JSwitch(ByStore(s.pick), cases);
    assert LowerStmt(FunctionCtx(false), s, 0).code == [switch];
    RunOne(switch, ts);
  }

  /** In a loop inside a switch clause: the loop gets a name, but the break does not use it. */
  lemma {:induction false} BreakLostInSwitch()
    ensures !SameResult([Item(None, SwitchSpin())], false)
  {
    SwitchSource(map[]);
    SwitchTarget(JState(map[], map[]));
    HangsInstead(SwitchSpin(), map[]);
  }

  lemma {:induction false} MachineNeedsLabel()
    ensures NeedsLoopLabel(Machine(L, Break))
  {
    var items := Machine(L, Break);
    assert items[1].lab == Some(L) && GotoAt(items, 2, L);
    TargetIsBackward(items, 1, 2);
  }

  // ----- a label with the name of the entry state -----

  /** `goto l; l: return; goto l` returns, and so does its machine unless `l` is the name of the
      state in front of the first label. */
  lemma {:induction false} EntryLabelHangs(l: Label)
    ensures SameResult(Machine(l, Return(None)), false) <==> l != ENTRY
  {
    hide LowerFunction, RunFrom, JRun;
    forall st: Store
      ensures TargetResult(JRun(LowerFunction(Machine(l, Return(None)), false).code, JState(st, map[]))) ==
                             (if l == ENTRY then Hangs else Returns(Undefined, st)) {
      ReturnMachine(l, JState(st, map[]));
      MachineSource(l, Return(None), st);
    }
    forall st: Store ensures SourceResult(RunFrom(Machine(l, Return(None)), 0, st)) == Returns(Undefined, st) {
      MachineSource(l, Return(None), st);
    }
    if l == ENTRY {
      var st: Store := map[];
      assert TargetResult(JRun(LowerFunction(Machine(l, Return(None)), false).code, JState(st, map[]))) == Hangs;
    }
  }

  lemma {:induction false} ReturnMachine(l: Label, ts: JState)
    ensures var r := JRun(LowerFunction(Machine(l, Return(None)), false).code, ts);
      if l == ENTRY then r == JDiverge else r.JDone? && r.comp == JReturned(Undefined) && r.ts.user == ts.user
  {
    hide LowerFrom, Loop;
    var ctx, ret := FunctionCtx(false), Return(None);
    var (values, cases, inner) := MachineCode(ctx, l, ret, 0);
    var t1 := ts.(vars := ts.vars[GotoState(0) := Str(ENTRY)]);
    var t2 := t1.(vars := t1.vars[GotoState(0) := Str(l)]);
    MachineLowered(ctx, l, ret, 0);
    GoRuns(0, l, GoState(0, l) + [JBreak], t1);
    ClusterRuns(0, values, cases, ts, t1);
    if l == ENTRY {
      var step := JLoopStepFn(ClusterLoop(0, values, cases), {GotoLoop(0)});
      assert t2.vars == t1.vars;
      MachineTurn(0, values, cases, t1, 0);
      assert step(t1) == JLoopStep(ClusterLoop(0, values, cases), {GotoLoop(0)}, t1);
      Stuck(step, t1);
    } else {
      FirstIs(cases[1].body, JReturn(RetVoid), t2);
      MachineLoops(0, values, cases, t1, t2, JDone(JReturned(Undefined), t2));
    }
  }

  // ----- a goto in front of a statement that jumps to itself -----

  /** For every statement that only jumps to its own label, `goto l; l: s` is lowered to a loop
      whose single pass skips the statement. */
  lemma {:induction false} SelfLoopSkipped(ctx: Ctx, l: Label, s: Stmt, n: nat, ts: JState)
    requires l in GotosOf(s)
    ensures JRun(LowerFrom(ctx, [Item(None, Goto(l)), Item(Some(l), s)], 0, n).code, ts) ==
      JDone(JNormal, ts.(vars := ts.vars[Skip(n) := Bool(true)][Skip(n) := Bool(false)]))
  {
    hide LowerStmt, LowerFrom, GotosOf, BackwardLabels;
    var items := [Item(None, Goto(l)), Item(Some(l), s)];
    var a := LowerStmt(BackwardCtx(ctx, items), s, n + 1);
    SelfLoopLowered(ctx, l, s, n);
    var body := LeadingFirst(n, a.code) + [JBreak];
    var code, loop := [JSet(Skip(n), Bool(true))] + LoopCode(l, LeadingFirst(n, a.code)),
        JLoop(NOTHING, FOREVER, NOTHING, body);
    var t1 := ts.(vars := ts.vars[Skip(n) := Bool(true)]);
    var t2 := t1.(vars := t1.vars[Skip(n) := Bool(false)]);
    FirstSkipped(n, a.code, [JBreak], t1);
    RunOne(JBreak, t2);
    var step := JLoopStepFn(loop, {Src(l)});
    LoopUnfold(step, t1, JDiverge);
    assert t1.(user := t1.user) == t1;
    assert step(t1) == JLoopStep(loop, {Src(l)}, t1);
    assert JExec(loop, {Src(l)}, t1) == Loop(step, t1, JDiverge) == JDone(JNormal, t2);
    assert {} + {Src(l)} == {Src(l)};
    RunOne(code[1], t1);
    assert JExec(code[0], {}, ts) == JDone(JNormal, t1);
    assert code[1..] == [code[1]];
  }

  lemma {:induction false} SelfLoopChunk(l: Label, s: Stmt)
    requires l in GotosOf(s)
    ensures ChunkAt([Item(None, Goto(l)), Item(Some(l), s)], 0) == Leading(1)
  {
    var items := [Item(None, Goto(l)), Item(Some(l), s)];
    assert GotoAt(items, 0, l) && GotoAt(items, 1, l) && items[1].lab == Some(l);
    assert LabelSeen(items, l, 1);
    assert LastBackward(items, l, 2) == Some(1);
    assert BackwardEnd(items, l) == Some(1);
    assert !JumpsBack(items);
    assert LeadingTarget(items, 0, 1);
  }

  lemma {:induction false} SelfLoopLowered(ctx: Ctx, l: Label, s: Stmt, n: nat)
    requires l in GotosOf(s)
    ensures var items := [Item(None, Goto(l)), Item(Some(l), s)];
      LowerFrom(ctx, items, 0, n).code ==
        [JSet(Skip(n), Bool(true))] + LoopCode(l, LeadingFirst(n, LowerStmt(BackwardCtx(ctx, items), s, n + 1).code))
  {
    hide LowerStmt, ChunkAt;
    var items := [Item(None, Goto(l)), Item(Some(l), s)];
    SelfLoopChunk(l, s);
    var inner := BackwardCtx(ctx, items);
    var a := LowerStmt(inner, s, n + 1);
    assert items[2..2] == [];
    assert LowerFrom(inner, items[2..2], 0, a.next).code == [];
    assert LeadingFirst(n, a.code) + [] == LeadingFirst(n, a.code);
    var r := LowerLeading(ctx, items, 0, 1, n);
    assert LowerChunk(ctx, items, 0, n) == r;
    assert LowerFrom(ctx, items, 2, r.next).code == [];
  }

  /** `goto L; L: { x = 1; if false { goto L } }` sets x; the emitted loop does not. */
  lemma {:induction false} SelfLoopLost()
    ensures var s := Block([Item(None, Act(st => st["x" := 1])),
                            Item(None, If(st => (false, st), [Item(None, Goto(L))], []))]);
      !SameResult([Item(None, Goto(L)), Item(Some(L), s)], false)
  {
    hide LowerFrom, LowerStmt, RunFrom, BackwardLabels;
    var set1, check := Item(None, Act(st => st["x" := 1])),
        Item(None, If(st => (false, st), [Item(None, Goto(L))], []));
    var s := Block([set1, check]);
    var items := [Item(None, Goto(L)), Item(Some(L), s)];
    assert L in GotosOf(s) by {
      var jump := [Item(None, Goto(L))];
      assert L in GotosOf(jump[0].stmt);
      GotosInAt(jump, L);
      GotosInAt([set1, check], L);
      assert L in GotosOf([set1, check][1].stmt);
    }
    SelfLoopSkipped(FunctionCtx(false), L, s, 0, JState(map[], map[]));
    SelfLoopSource(set1, check, map[]);
    assert RunFrom(items, 0, map[]).st["x"] == 1;
  }

  lemma {:induction false} SelfLoopSource(first: Item, second: Item, st: Store)
    requires first.lab.None? && second.lab.None? && first.stmt.Act? && second.stmt.If?
    requires !second.stmt.cond(first.stmt.run(st)).0 && second.stmt.els == []
    ensures RunFrom([Item(None, Goto(L)), Item(Some(L), Block([first, second]))], 0, st) ==
      Done(Normal, second.stmt.cond(first.stmt.run(st)).1)
  {
    var body := [first, second];
    var items := [Item(None, Goto(L)), Item(Some(L), Block(body))];
    var st1 := first.stmt.run(st);
    var st2 := second.stmt.cond(st1).1;
    RunUnfold(items, 0, st);
    assert items[1].lab == Some(L) && IndexOf(items, L) == 1;
    RunUnfold(items, 1, st);
    RunUnfold(body, 0, st);
    RunUnfold(body, 1, st1);
    RunUnfold([], 0, st2);
    RunUnfold(body, 2, st2);
    RunUnfold(items, 2, st2);
  }

  /** `K: a; if c { goto K }; goto L; L: b; if d { goto L }`: two loops one behind the other, with
      a goto between them. */
  function TwoLoops(a: Store -> Store, b: Store -> Store, c: Store -> (bool, Store),
                    d: Store -> (bool, Store)): seq<Item>
  {
    [Item(Some("K"), Act(a)), JumpIf(c, "K"), Item(None, Goto(L)), Item(Some(L), Act(b)), JumpIf(d, L)]
  }

  lemma {:induction false} TwoLoopsChunk(a: Store -> Store, b: Store -> Store, c: Store -> (bool, Store),
                                         d: Store -> (bool, Store))
    ensures var items := TwoLoops(a, b, c, d);
      ChunkAt(items, 2) == Leading(4) && IndexOf(items, L) == 3 && HasLabel(items, L)
  {
    hide GotosOf;
    var items := TwoLoops(a, b, c, d);
    TwoLoopsGotos(a, b, c, d);
    assert GotoAt(items, 1, "K") && GotoAt(items, 2, L) && GotoAt(items, 4, L);
    assert items[0].lab == Some("K") && items[3].lab == Some(L);
    assert OwnGotoAt(items, 1) && !OwnGotoAt(items, 0);
    assert FirstOwnGoto(items, 0) == 1;
    assert LabelSeen(items, L, 4);
    assert LastBackward(items, L, 5) == Some(4);
    assert BackwardEnd(items, L) == Some(4);
    assert LeadingTarget(items, 2, 4);
  }

  lemma {:induction false} TwoLoopsGotos(a: Store -> Store, b: Store -> Store, c: Store -> (bool, Store),
                                         d: Store -> (bool, Store))
    ensures var items := TwoLoops(a, b, c, d);
      GotosOf(items[0].stmt) == [] && GotosOf(items[1].stmt) == ["K"] && GotosOf(items[2].stmt) == [L] &&
      GotosOf(items[3].stmt) == [] && GotosOf(items[4].stmt) == [L]
  {
    JumpIfGotos(c, "K");
    JumpIfGotos(d, L);
  }

  /** The goto in the middle is taken for one that enters the second loop behind its first
      statement: the code skips b, and the meaning is kept if and only if that makes no
      difference. */
  lemma {:induction false} SecondLoopSkipped(ctx: Ctx, env: Env, a: Store -> Store, b: Store -> Store,
                                             c: Store -> (bool, Store), d: Store -> (bool, Store), n: nat, ts: JState)
    requires Lowered(ctx, env, TwoLoops(a, b, c, d), 2, n, ts)
    ensures var items := TwoLoops(a, b, c, d);
      KeepsMeaning(ctx, items, 2, n, ts) <==> RunFrom(items, 4, ts.user) == RunFrom(items, 4, b(ts.user))
  {
    hide KeepsMeaning, ChunkAt, RunFrom, Alike, SaneIn, Ready, Good;
    var items := TwoLoops(a, b, c, d);
    TwoLoopsChunk(a, b, c, d);
    TwoLoopsFine(FlowOf(ctx), a, b, c, d);
    EntryKeptExactly(ctx, env, items, 2, n, ts);
    RunUnfold(items, 3, ts.user);
    assert RunFrom(items, 3, ts.user) == RunFrom(items, 4, b(ts.user));
    TwoLoopsLeft(a, b, c, d, ts.user, ctx.hasResult);
    TwoLoopsLeft(a, b, c, d, b(ts.user), ctx.hasResult);
    AlikeSame(ctx, RunFrom(items, 4, ts.user), RunFrom(items, 4, b(ts.user)));
  }

  lemma {:induction false} TwoLoopsLeft(a: Store -> Store, b: Store -> Store, c: Store -> (bool, Store),
                                        d: Store -> (bool, Store), st: Store, hasResult: bool)
    requires SaneIn(TwoLoops(a, b, c, d), hasResult)
    ensures var o := RunFrom(TwoLoops(a, b, c, d), 4, st); o.Done? ==> !o.comp.BrokeTo? && !o.comp.ContinuedTo?
  {
    hide RunFrom, SaneIn;
    var items := TwoLoops(a, b, c, d);
    RunExits(items, 4, st, hasResult);
    forall l ensures !BranchesToIn(items, l) {
      JumpBranches(c, "K", l);
      JumpBranches(d, L, l);
      forall k | 0 <= k < |items| ensures !ItemBranchesTo(items[k], l) { }
    }
  }

  lemma {:induction false} TwoLoopsFine(f: Flow, a: Store -> Store, b: Store -> Store, c: Store -> (bool, Store),
                                        d: Store -> (bool, Store))
    ensures var items := TwoLoops(a, b, c, d); FaithfulLoop(f, items, 3, 4) && CapturesNothing(items, Labelled(3, 4), f)
  {
    var items := TwoLoops(a, b, c, d);
    var jump, rest := [Item(None, Goto(L))], items[4..5];
    assert rest == [JumpIf(d, L)];
    UnlabelledChunk(jump, 0);
    UnlabelledChunk(rest, 0);
    assert FaithfulFrom(f, jump, 0) && FaithfulFrom(f, [], 0);
    assert Faithful(f, rest[0].stmt);
    assert FaithfulFrom(f, rest, 1) && FaithfulChunk(f, rest, 0);
    assert !ItemFreeBreak(jump[0]) && !ItemFreeContinue(jump[0]);
    assert !FreeBreakIn(jump) && !FreeContinueIn(jump) && !FreeBreakIn([]) && !FreeContinueIn([]);
    assert Survives(f, items[3].stmt) && Survives(f, items[4].stmt);
  }

  // ----- a labelled break of a loop that is jumped back to -----

  /** `L: for { break L }; x; if c { goto L }` */
  function BreakOut(x: Store -> Store, c: Store -> (bool, Store)): seq<Item>
  {
    [Item(Some(L), For(false, NOTHING, FOREVER, NOTHING, [Item(None, BreakTo(L))])), Item(None, Act(x)), JumpIf(c, L)]
  }

  lemma {:induction false} LeftChunk(x: Store -> Store, c: Store -> (bool, Store))
    ensures var items := BreakOut(x, c); ChunkAt(items, 0) == Backward(2)
  {
    hide GotosOf;
    var items := BreakOut(x, c);
    LeftGotos(x, c);
    assert GotoAt(items, 2, L) && items[0].lab == Some(L);
    assert !OwnGotoAt(items, 0) && !OwnGotoAt(items, 1) && OwnGotoAt(items, 2);
    assert FirstOwnGoto(items, 0) == 2;
    assert LabelSeen(items, L, 2);
    assert LastBackward(items, L, 3) == Some(2) && BackwardEnd(items, L) == Some(2);
    assert forall p :: ForwardStart(items, p).None?;
  }

  lemma {:induction false} LeftGotos(x: Store -> Store, c: Store -> (bool, Store))
    ensures var items := BreakOut(x, c);
      GotosOf(items[0].stmt) == [] && GotosOf(items[1].stmt) == [] && GotosOf(items[2].stmt) == [L]
  {
    JumpIfGotos(c, L);
    var body := [Item(None, BreakTo(L))];
    assert ItemGotos(body[0]) == [] && body[1..] == [];
  }

  /** The break is emitted with the label of the loop that the lowering adds: it leaves that loop
      and with it the statements behind the for loop. */
  lemma {:induction false} LabelledBreakLost(x: Store -> Store, c: Store -> (bool, Store), ts: JState)
    ensures JRun(LowerFunction(BreakOut(x, c), false).code, ts) == JDone(JNormal, ts)
    ensures RunFrom(BreakOut(x, c), 0, ts.user) == RunFrom(BreakOut(x, c), 1, ts.user)
    ensures SameResult(BreakOut(x, c), false) <==>
      forall st: Store :: SourceResult(RunFrom(BreakOut(x, c), 1, st)) == Returns(Undefined, st)
  {
    hide LowerFunction, RunFrom, JRun;
    LeftTarget(x, c, ts);
    LeftSource(x, c, ts.user);
    forall st: Store
      ensures TargetResult(JRun(LowerFunction(BreakOut(x, c), false).code, JState(st, map[]))) == Returns(Undefined, st)
      ensures RunFrom(BreakOut(x, c), 0, st) == RunFrom(BreakOut(x, c), 1, st)
    {
      LeftTarget(x, c, JState(st, map[]));
      LeftSource(x, c, st);
    }
  }

  lemma {:induction false} LeftSource(x: Store -> Store, c: Store -> (bool, Store), st: Store)
    ensures RunFrom(BreakOut(x, c), 0, st) == RunFrom(BreakOut(x, c), 1, st)
  {
    var items := BreakOut(x, c);
    var s, body := items[0].stmt, [Item(None, BreakTo(L))];
    OneRuns(BreakTo(L), st);
    LoopUnfold(ForStepFn(s, Some(L)), st, Diverge);
    assert ForStepFn(s, Some(L))(st) == ForStep(s, Some(L), st) == Stop(Done(BrokeTo(L), st));
    assert Exec(s, Some(L), st) == Done(BrokeTo(L), st);
    RunUnfold(items, 0, st);
  }

  lemma {:induction false} LeftTarget(x: Store -> Store, c: Store -> (bool, Store), ts: JState)
    ensures JRun(LowerFunction(BreakOut(x, c), false).code, ts) == JDone(JNormal, ts)
  {
    hide ChunkAt, LowerFrom, BackwardLabels;
    var items, ctx := BreakOut(x, c), FunctionCtx(false);
    LeftChunk(x, c);
    var inner := BackwardCtx(ctx, items);
    var a := LowerStmt(inner, items[0].stmt, 0);
    var b := LowerFrom(inner, items[1..3], 0, a.next);
    LeftLoop(inner, items[0].stmt);
    LeftLowered(ctx, items);
    LoopIsLeft(L, a.code[0], b.code, ts);
  }

  lemma {:induction false} LeftLowered(ctx: Ctx, items: seq<Item>)
    requires |items| == 3 && ChunkAt(items, 0) == Backward(2) && items[0].lab == Some(L)
    ensures var inner := BackwardCtx(ctx, items);
            var a := LowerStmt(inner, items[0].stmt, 0);
            LowerFrom(ctx, items, 0, 0).code == LoopCode(L, a.code + LowerFrom(inner, items[1..3], 0, a.next).code)
  {
    hide LowerStmt, ChunkAt;
    var low := LowerBackward(ctx, items, 0, 2, 0);
    assert LowerChunk(ctx, items, 0, 0) == low;
    assert LowerFrom(ctx, items, 3, low.next).code == [];
  }

  lemma {:induction false} LeftLoop(ctx: Ctx, s: Stmt)
    requires s == For(false, NOTHING, FOREVER, NOTHING, [Item(None, BreakTo(L))])
    ensures LowerStmt(ctx, s, 0).code == [JLoop(NOTHING, FOREVER, NOTHING, [JBreakTo(Src(L))])]
  {
    hide BackwardLabelAt;
    NoneLabelled(s.body);
    OneStatement(ForCtx(ctx, false, 0), BreakTo(L), 1);
  }

  lemma {:induction false} LoopIsLeft(l: Label, first: JS, rest: seq<JS>, ts: JState)
    requires first == JLoop(NOTHING, FOREVER, NOTHING, [JBreakTo(Src(l))])
    ensures JRun(LoopCode(l, [first] + rest), ts) == JDone(JNormal, ts)
  {
    var out := JDone(JBrokeTo(Src(l)), ts);
    assert ts.(user := ts.user) == ts;
    RunOne(JBreakTo(Src(l)), ts);
    LoopUnfold(JLoopStepFn(first, {}), ts, JDiverge);
    assert JLoopStepFn(first, {})(ts) == JLoopStep(first, {}, ts) == Stop(out);
    assert JExec(first, {}, ts) == out;
    var body := ([first] + rest) + [JBreak];
    FirstIs(body, first, ts);
    var loop := JLoop(NOTHING, FOREVER, NOTHING, body);
    LoopUnfold(JLoopStepFn(loop, {Src(l)}), ts, JDiverge);
    assert JLoopStepFn(loop, {Src(l)})(ts) == JLoopStep(loop, {Src(l)}, ts) == Stop(out);
    assert {} + {Src(l)} == {Src(l)};
    assert JExec(loop, {Src(l)}, ts) == out;
    RunOne(JLabeled(Src(l), loop), ts);
  }

  // ----- branches that the output cannot express -----

  /** A labelled branch or a goto cannot leave a callback: it is a diagnostic or an early error. */
  lemma {:induction false} NothingLeavesACallback(ctx: Ctx, env: Env, it: Iterator, bind: (int, Store) -> Store,
                                                  s: Stmt, n: nat)
    requires s.BreakTo? || s.ContinueTo? || s.Goto?
    ensures var low := LowerStmt(ctx, RangeFunc(it, bind, [Item(None, s)]), n); !(low.ok && LegalSeq(low.code, env))
  {
    hide LegalSeq;
    var r, inner := RangeFunc(it, bind, [Item(None, s)]), RangeCtx(ctx, n);
    var low, b := LowerStmt(ctx, r, n), LowerStmt(RangeCtx(ctx, n), s, n + 1);
    OneStatement(inner, s, n + 1);
    if low.ok && LegalSeq(low.code, env) {
      RangeLegal(ctx, env, r, b.code, n);
      NotOutside(inner, s, n + 1);
    }
  }

  lemma {:induction false} NotOutside(ctx: Ctx, s: Stmt, n: nat)
    requires s.BreakTo? || s.ContinueTo? || s.Goto?
    ensures var low := LowerStmt(ctx, s, n); low.ok ==> !LegalSeq(low.code, OUTSIDE)
  {
    var low := LowerStmt(ctx, s, n);
    if low.ok { assert !Legal(low.code[|low.code| - 1], {}, OUTSIDE); }
  }

  /** `L: a; if c { goto M }; if d { goto L }; M: b; if e { goto M }`: two loops one behind the
      other, and a jump from the first into the second. */
  function Across(a: Store -> Store, c: Store -> (bool, Store)): seq<Item>
  {
    [Item(Some(L), Act(a)), JumpIf(c, "M"), JumpIf(c, L), Item(Some("M"), Act(a)), JumpIf(c, "M")]
  }

  lemma {:induction false} AcrossGotos(a: Store -> Store, c: Store -> (bool, Store))
    ensures var items := Across(a, c);
      GotosOf(items[0].stmt) == [] && GotosOf(items[1].stmt) == ["M"] && GotosOf(items[2].stmt) == [L] &&
      GotosOf(items[3].stmt) == [] && GotosOf(items[4].stmt) == ["M"]
  {
    JumpIfGotos(c, "M");
    JumpIfGotos(c, L);
  }

  lemma {:induction false} AcrossChunks(a: Store -> Store, c: Store -> (bool, Store))
    ensures var items := Across(a, c);
      ChunkAt(items, 0) == Backward(2) && ChunkAt(items, 3) == Backward(4) && L in BackwardLabels(items) &&
      "M" in BackwardLabels(items)
  {
    hide GotosOf;
    var items := Across(a, c);
    AcrossGotos(a, c);
    assert GotoAt(items, 2, L) && GotoAt(items, 4, "M") && GotoAt(items, 1, "M");
    assert items[0].lab == Some(L) && items[3].lab == Some("M");
    assert LabelSeen(items, L, 2) && LabelSeen(items, "M", 4);
    assert LastBackward(items, L, 5) == Some(2) && LastBackward(items, "M", 5) == Some(4);
    assert BackwardEnd(items, L) == Some(2) && BackwardEnd(items, "M") == Some(4);
    assert BackwardLabelAt(items, 0) && BackwardLabelAt(items, 3);
    assert FirstOwnGoto(items, 0) == 1 by { assert OwnGotoAt(items, 1) && !OwnGotoAt(items, 0); }
    assert forall p :: ForwardStart(items, p).None?;
  }

  lemma {:induction false} JumpLowered(ctx: Ctx, c: Store -> (bool, Store), l: Label, n: nat)
    requires ctx.state.None? && l !in ctx.forwardGotos && l in ctx.gotoLabels
    ensures LowerStmt(ctx, JumpIf(c, l).stmt, n) == Low([JIf(c, [JContinueTo(Src(l))], [])], n, true)
  {
    OneStatement(ctx, Goto(l), n);
  }

  lemma {:induction false} AcrossFirst(a: Store -> Store, c: Store -> (bool, Store))
    ensures var low := LowerBackward(FunctionCtx(false), Across(a, c), 0, 2, 0);
      low == Low(LoopCode(L, [JAct(a)] + ([JIf(c, [JContinueTo(Src("M"))], [])] + [JIf(c, [JContinueTo(Src(L))], [])])),
                 0, true)
  {
    hide ChunkAt;
    var items := Across(a, c);
    var inner := BackwardCtx(FunctionCtx(false), items);
    AcrossChunks(a, c);
    var rest := [JumpIf(c, "M"), JumpIf(c, L)];
    assert items[1..3] == rest;
    UnlabelledChunk(rest, 0);
    UnlabelledChunk(rest, 1);
    JumpLowered(inner, c, "M", 0);
    JumpLowered(inner, c, L, 0);
    PlainLowered(inner, rest, 1, 0);
    PlainLowered(inner, rest, 0, 0);
    assert LowerFrom(inner, rest, 2, 0).code == [];
    assert LowerFrom(inner, rest, 0, 0) ==
      Low([JIf(c, [JContinueTo(Src("M"))], [])] + [JIf(c, [JContinueTo(Src(L))], [])], 0, true);
    assert LowerStmt(inner, items[0].stmt, 0) == Low([JAct(a)], 0, true);
  }

  lemma {:induction false} AcrossSecond(a: Store -> Store, c: Store -> (bool, Store), n: nat)
    ensures LowerBackward(FunctionCtx(false), Across(a, c), 3, 4, n).ok
  {
    hide ChunkAt;
    var items := Across(a, c);
    var inner := BackwardCtx(FunctionCtx(false), items);
    AcrossChunks(a, c);
    assert items[4..5] == [JumpIf(c, "M")];
    JumpLowered(inner, c, "M", n);
    OneStatement(inner, JumpIf(c, "M").stmt, n);
  }

  lemma {:induction false} ContinueOutside(c: Store -> (bool, Store), l: Label, m: Label, a: JS, rest: seq<JS>)
    requires l != m
    ensures !LegalSeq(LoopCode(l, [a] + ([JIf(c, [JContinueTo(Src(m))], [])] + rest)), OUTSIDE)
  {
    var jump := JContinueTo(Src(m));
    var body := [a] + ([JIf(c, [jump], [])] + rest);
    var within := Inside(OUTSIDE, Src(l));
    LegalOne(jump, within);
    LegalOne(JIf(c, [jump], []), within);
    LegalConcat([a], [JIf(c, [jump], [])] + rest, within);
    LegalConcat([JIf(c, [jump], [])], rest, within);
    if LegalSeq(LoopCode(l, body), OUTSIDE) { LoopLegal(l, body, OUTSIDE); }
  }

  /** The jump is emitted as a continue of a loop that is not open, with no diagnostic. */
  lemma {:induction false} JumpAcrossLoops(a: Store -> Store, c: Store -> (bool, Store))
    ensures var low := LowerFunction(Across(a, c), false); low.ok && !LegalSeq(low.code, OUTSIDE)
  {
    hide LowerStmt, ChunkAt, BackwardLabels, LowerBackward, LegalSeq;
    var items, ctx := Across(a, c), FunctionCtx(false);
    AcrossChunks(a, c);
    AcrossFirst(a, c);
    AcrossSecond(a, c, 0);
    var first, second := LowerBackward(ctx, items, 0, 2, 0), LowerBackward(ctx, items, 3, 4, 0);
    assert LowerChunk(ctx, items, 0, 0) == first && LowerChunk(ctx, items, 3, 0) == second;
    assert LowerFrom(ctx, items, 5, second.next).ok;
    var tail := LowerFrom(ctx, items, 3, 0);
    assert tail == Then(second, LowerFrom(ctx, items, 5, second.next));
    assert LowerFunction(items, false) == Then(first, tail);
    ContinueOutside(c, L, "M", JAct(a), [JIf(c, [JContinueTo(Src(L))], [])]);
    LegalConcat(first.code, tail.code, OUTSIDE);
  }

  /** A goto from inside a loop forwards to a label behind it gives a diagnostic or an early error, when
      the list is not lowered as a state machine, no goto crosses the label of the loop, and the
      labelled statement itself holds no goto forwards. */
  lemma {:induction false} LoopLeftRejected(items: seq<Item>, hasResult: bool, p: nat, h: nat, g: nat, q: nat)
    requires Distinct(LabelsIn(items)) && !OneCluster(items) && Spans.Ended(items, p)
    requires p < g <= h && p < q && Spans.Jumps(items, h, p) && Spans.Jumps(items, g, q)
    requires !Spans.EndsBehind(items, p, q) && forall t: nat :: p < t ==> !Spans.Jumps(items, p, t)
    ensures !Good(LowerFunction(items, hasResult), OUTSIDE)
  {
    hide LabelsIn, OneCluster, ScopedFrom, LegalSeq, LowerFrom;
    PlacedExactly(items, hasResult);
    Crossings.LoopLeft(items, TOP_SCOPE, p, h, g, q);
  }

  /** A goto back from behind a loop to a label inside it is rejected in the same lists. */
  lemma {:induction false} LoopReenteredRejected(items: seq<Item>, hasResult: bool, p: nat, h: nat, g: nat, q: nat)
    requires Distinct(LabelsIn(items)) && !OneCluster(items) && Spans.Ended(items, p)
    requires p < q <= h && p < g && Spans.Jumps(items, h, p) && Spans.Jumps(items, g, q)
    requires !Spans.EndsBehind(items, p, g) && forall t: nat :: p < t ==> !Spans.Jumps(items, p, t)
    ensures !Good(LowerFunction(items, hasResult), OUTSIDE)
  {
    hide LabelsIn, OneCluster, ScopedFrom, LegalSeq, LowerFrom;
    PlacedExactly(items, hasResult);
    Crossings.LoopReentered(items, TOP_SCOPE, p, h, g, q);
  }

  /** A labelled statement that ends a block and goes forwards itself, behind all blocks, is rejected: the
      goto to the next label would have to stand in a block that starts further in front. */
  lemma {:induction false} ChainRejected(items: seq<Item>, hasResult: bool, idx: nat, p: nat, q: nat)
    requires Distinct(LabelsIn(items)) && !OneCluster(items) && Spans.Ended(items, idx)
    requires idx < p < q && Spans.Jumps(items, idx, p) && Spans.Jumps(items, p, q) && !Spans.Covered(items, p)
    requires !BackwardLabelAt(items, p) && !LeadingAt(items, idx)
    ensures !Good(LowerFunction(items, hasResult), OUTSIDE)
  {
    hide LabelsIn, OneCluster, ScopedFrom, LegalSeq, LowerFrom, LeadingAt, BackwardLabelAt;
    PlacedExactly(items, hasResult);
    Crossings.ChainLeft(items, TOP_SCOPE, idx, p, q);
  }

  /** So is a goto back past the label of a block: the blocks of a group are cut at all its labels, also
      inside a loop. */
  lemma {:induction false} LoopCutRejected(items: seq<Item>, hasResult: bool, idx: nat, last: nat, r: nat, t: nat,
                                           g: nat)
    requires Distinct(LabelsIn(items)) && !OneCluster(items) && Spans.Ended(items, idx)
    requires idx < |items| && ChunkAt(items, idx) == Group(last) && InGroup(items, idx, last, t)
    requires idx <= r < t <= g <= last && Spans.Jumps(items, g, r)
    ensures !Good(LowerFunction(items, hasResult), OUTSIDE)
  {
    hide LabelsIn, OneCluster, ScopedFrom, LegalSeq, LowerFrom, ChunkAt, InGroup, Spans.Ended;
    PlacedExactly(items, hasResult);
    if ScopedIn(items, TOP_SCOPE) {
      Spans.StartsStanding(items);
      Crossings.GroupHolds(items, idx, last);
      Crossings.StandsAt(items, 0, idx, TOP_SCOPE);
      Crossings.LoopCut(items, TOP_SCOPE, idx, last, r, t, g);
    }
  }

  /** `goto A; A: a; L: for { break L }; goto A` */
  function LoopInMachine(a: Store -> Store): seq<Item>
  {
    [Item(None, Goto("A")), Item(Some("A"), Act(a)),
     Item(Some(L), For(false, NOTHING, FOREVER, NOTHING, [Item(None, BreakTo(L))])), Item(None, Goto("A"))]
  }

  lemma {:induction false} OneInFront(it: Item, rest: seq<Item>)
    ensures GotosIn([it] + rest) == GotosOf(it.stmt) + GotosIn(rest) &&
      LabelsIn([it] + rest) == LabelOf(it) + LabelsOf(it.stmt) + LabelsIn(rest)
  {
    var items := [it] + rest;
    assert items[0] == it && items[1..] == rest;
  }

  lemma {:induction false} NothingIn()
    ensures GotosIn([]) == [] && LabelsIn([]) == multiset{}
  {
  }

  lemma {:induction false} ForBodyOnly(body: seq<Item>)
    ensures var s := For(false, NOTHING, FOREVER, NOTHING, body);
      GotosOf(s) == GotosIn(body) && LabelsOf(s) == LabelsIn(body) &&
      forall l :: BranchesTo(s, l) <==> BranchesToIn(body, l)
  {
  }

  lemma {:induction false} FourItems(a: Item, b: Item, c: Item, d: Item)
    ensures GotosIn([a, b, c, d]) == GotosOf(a.stmt) + GotosOf(b.stmt) + GotosOf(c.stmt) + GotosOf(d.stmt)
    ensures LabelsIn([a, b, c, d]) == LabelOf(a) + LabelsOf(a.stmt) + LabelOf(b) + LabelsOf(b.stmt) + LabelOf(c) +
      LabelsOf(c.stmt) + LabelOf(d) + LabelsOf(d.stmt)
  {
    hide GotosIn, LabelsIn, GotosOf, LabelsOf, LabelOf;
    NothingIn();
    OneInFront(d, []);
    assert [d] + [] == [d];
    OneInFront(c, [d]);
    assert [c] + [d] == [c, d];
    OneInFront(b, [c, d]);
    assert [b] + [c, d] == [b, c, d];
    OneInFront(a, [b, c, d]);
    assert [a] + [b, c, d] == [a, b, c, d];
  }

  lemma {:induction false} LeafLists(s: Stmt)
    requires s.Act? || s.Goto? || s.BreakTo?
    ensures GotosOf(s) == (if s.Goto? then [s.lab] else []) && LabelsOf(s) == multiset{}
  {
  }

  lemma {:induction false} LoopInMachineLists(a: Store -> Store)
    ensures var items := LoopInMachine(a);
      GotosIn(items) == ["A", "A"] && LabelsIn(items) == multiset{"A", L} && GotosOf(items[2].stmt) == []
  {
    hide GotosIn, LabelsIn, GotosOf, LabelsOf;
    var items, leave := LoopInMachine(a), Item(None, BreakTo(L));
    NothingIn();
    OneInFront(leave, []);
    assert [leave] + [] == [leave];
    LeafLists(leave.stmt);
    ForBodyOnly([leave]);
    LeafLists(items[0].stmt);
    LeafLists(items[1].stmt);
    LeafLists(items[3].stmt);
    FourItems(items[0], items[1], items[2], items[3]);
  }

  lemma {:induction false} LoopInMachineChunk(a: Store -> Store)
    ensures ChunkAt(LoopInMachine(a), 0) == Cluster(1, 3)
  {
    hide GotosOf, GotosIn;
    var items := LoopInMachine(a);
    LoopInMachineLists(a);
    assert GotosOf(items[0].stmt) == ["A"] && GotosOf(items[3].stmt) == ["A"] by { JumpGotos("A"); }
    assert GotoAt(items, 0, "A") && GotoAt(items, 3, "A") && items[1].lab == Some("A");
    assert OwnGotoAt(items, 0) && OwnGotoAt(items, 3) && TargetAt(items, 1) && !TargetAt(items, 0);
    assert FirstTarget(items, 0) == 1 && LastTouched(items, 4) == 3;
  }

  lemma {:induction false} JumpGotos(l: Label)
    ensures GotosOf(Goto(l)) == [l]
  {
  }

  /** In a state machine every statement behind a label loses that label, also when no goto goes to
      it: a labelled branch to it is an early error. */
  lemma {:induction false} LabelLostInMachine(a: Store -> Store)
    ensures !Good(LowerFunction(LoopInMachine(a), false), OUTSIDE)
  {
    hide ChunkAt, LowerFrom, LegalSeq, GotosIn, LabelsIn;
    var items := LoopInMachine(a);
    LoopInMachineChunk(a);
    var body := [Item(None, BreakTo(L))];
    LoopInMachineLists(a);
    PlacedExactly(items, false);
    UnlabelledChunk(body, 0);
    var sc := InMachine(TOP_SCOPE, LabelsBetween(items, 1, 3));
    var inner := sc.(loops := sc.loops + OwnLabels(None), breakable := true, loop := true);
    assert !ScopedItem(body[0], inner);
    assert !ScopedFrom(body, 0, inner);
    assert !Scoped(items[2].stmt, None, sc);
    assert !ScopedRange(items, 2, 1, 3, sc) && !ScopedRange(items, 1, 1, 3, sc) && !ScopedRange(items, 0, 1, 3, sc);
    assert !ScopedChunk(items, 0, TOP_SCOPE);
  }

  // ----- branches to a label that the lowering takes away -----

  /** A machine takes the labels of its states away, and nested blocks those of the group. */
  predicate LabelGone(items: seq<Item>, idx: nat, k: nat)
    requires idx < |items|
  {
    match ChunkAt(items, idx)
    case Cluster(first, end) => first <= k <= end
    case Group(last) => InGroup(items, idx, last, k)
    case _ => false
  }

  /** A labelled break or continue to such a label, in the statement that had it, is a diagnostic or
      an early error, in every context. */
  lemma {:induction false} GoneLabelRejected(ctx: Ctx, env: Env, items: seq<Item>, idx: nat, n: nat, sc: Scope, k: nat)
    requires Ready(ctx, env, LabelsIn(items), n) && Exact(ctx, env, sc, GotosIn(items))
    requires idx < |items| && Standing(items, idx) && LabelGone(items, idx, k)
    requires k < |items| && items[k].lab.Some? && BranchesTo(items[k].stmt, items[k].lab.value)
    ensures !Good(LowerChunk(ctx, items, idx, n), env)
  {
    hide ChunkAt, LowerChunk, ScopedChunk, LabelsIn, LegalSeq, BranchesTo, GotosIn;
    ReadyDistinct(ctx, env, LabelsIn(items), n);
    LabelOnce(items, k, k, items[k].lab.value);
    if Good(LowerChunk(ctx, items, idx, n), env) {
      ChunkExact(ctx, env, items, idx, n, sc);
      GoneUnused(items, idx, sc, k);
      assert false;
    }
  }

  lemma {:induction false} GoneUnused(items: seq<Item>, idx: nat, sc: Scope, k: nat)
    requires idx < |items| && LabelGone(items, idx, k) && k < |items| && items[k].lab.Some? && Distinct(LabelsIn(items))
    requires Standing(items, idx)
    requires ScopedChunk(items, idx, sc) && Unnamed(sc, items[k].lab.value)
    ensures LabelUnused(items, k)
  {
    hide Scoped, ScopedItem, ScopedFrom, ScopedRange, ScopedNest, LabelsIn, LabelsOf, BranchesTo, ForwardStart,
         BackwardEnd;
    var l := items[k].lab.value;
    LabelOnce(items, k, k, l);
    match ChunkAt(items, idx)
    case Cluster(first, end) =>
      var inner := InMachine(sc, LabelsBetween(items, first, end));
      ChunkKind(items, idx);
      RangeBare(items, idx, first, end, inner, k);
      BranchesInScope(items[k].stmt, None, inner, l);
    case Group(last) =>
      assert k <= last;
      if k == last {
        BranchesInScope(items[k].stmt, None, sc, l);
      } else {
        NestUnused(items, idx, last, NextInGroup(items, idx, last, idx + 1), sc, k);
      }
    case _ =>
  }

  lemma {:induction false} RangeBare(items: seq<Item>, i: nat, first: nat, end: nat, sc: Scope, k: nat)
    requires end < |items| && ScopedRange(items, i, first, end, sc) && i <= k <= end && first <= k
    ensures Scoped(items[k].stmt, None, sc)
    decreases k - i
  {
    hide Scoped, ScopedItem;
    if i < k { RangeBare(items, i + 1, first, end, sc, k); }
  }

  /** Behind the label at `k` only the blocks of later labels are open. */
  lemma {:induction false} NestUnused(items: seq<Item>, start: nat, last: nat, p: nat, sc: Scope, k: nat)
    requires p <= k < last < |items| && InGroup(items, start, last, p) && InGroup(items, start, last, last)
    requires InGroup(items, start, last, k)
    requires ScopedNest(items, start, last, p, sc) && Distinct(LabelsIn(items)) && items[k].lab.Some?
    requires Unnamed(sc, items[k].lab.value)
    ensures LabelUnused(items, k)
    decreases k - p
  {
    hide Scoped, ScopedFrom, LabelsIn, BranchesTo, ForwardStart, InBlocks;
    var q := NextInGroup(items, start, last, p + 1);
    if p < k {
      NestUnused(items, start, last, q, sc, k);
    } else {
      var l, seg := items[k].lab.value, Segment(items, p, q);
      SegmentLabels(items, p, q);
      LaterBlocks(items, start, last, q, sc, k);
      BranchesFrom(seg, 0, InBlocks(sc, items, start, last, q), l);
      assert !ItemBranchesTo(seg[0], l);
    }
  }

  lemma {:induction false} LaterBlocks(items: seq<Item>, start: nat, last: nat, q: nat, sc: Scope, k: nat)
    requires k < q && k < |items| && items[k].lab.Some? && Distinct(LabelsIn(items)) && Unnamed(sc, items[k].lab.value)
    ensures Unnamed(InBlocks(sc, items, start, last, q), items[k].lab.value)
  {
    hide LabelsIn, ForwardStart;
    var l := items[k].lab.value;
    if p :| q <= p < |items| && InGroup(items, start, last, p) && items[p].lab.value == l { LabelOnce(items, p, k, l); }
  }

  /** `if c { goto L }; a; L: for { break L }` */
  function LeaveAhead(a: Store -> Store, c: Store -> (bool, Store)): seq<Item>
  {
    [JumpIf(c, L), Item(None, Act(a)), Item(Some(L), For(false, NOTHING, FOREVER, NOTHING, [Item(None, BreakTo(L))]))]
  }

  lemma {:induction false} LeaveAheadGotos(a: Store -> Store, c: Store -> (bool, Store))
    ensures var items := LeaveAhead(a, c);
      GotosOf(items[0].stmt) == [L] && GotosOf(items[1].stmt) == [] && GotosOf(items[2].stmt) == []
  {
    JumpIfGotos(c, L);
    var body := [Item(None, BreakTo(L))];
    assert ItemGotos(body[0]) == [] && body[1..] == [];
  }

  lemma {:induction false} LeaveAheadChunk(a: Store -> Store, c: Store -> (bool, Store))
    ensures var items := LeaveAhead(a, c); ChunkAt(items, 0) == Group(2) && LabelGone(items, 0, 2)
    ensures NextInGroup(LeaveAhead(a, c), 0, 2, 1) == 2
  {
    hide GotosOf;
    var items := LeaveAhead(a, c);
    LeaveAheadGotos(a, c);
    assert GotoAt(items, 0, L) && items[2].lab == Some(L);
    assert ForwardStart(items, 2) == Some(0);
    assert LastStarting(items, 0, 3) == Some(2);
    assert InGroup(items, 0, 2, 2) && !InGroup(items, 0, 2, 1);
    assert GroupEnd(items, 0, 2) == 2;
  }

  lemma {:induction false} LeaveAheadLabels(a: Store -> Store, c: Store -> (bool, Store))
    ensures LabelsIn(LeaveAhead(a, c)) == multiset{L} && BranchesTo(LeaveAhead(a, c)[2].stmt, L)
  {
    hide LabelsIn, LabelsOf, BranchesTo;
    var items, leave := LeaveAhead(a, c), Item(None, BreakTo(L));
    LeaveBranches(leave);
    NothingIn();
    OneInFront(leave, []);
    assert [leave] + [] == [leave];
    LeafLists(leave.stmt);
    ForBodyOnly([leave]);
    LeafLists(items[1].stmt);
    JumpIfFine(c, L);
    ThreeLabels(items[0], items[1], items[2]);
    assert items == [items[0], items[1], items[2]];
  }

  lemma {:induction false} ThreeLabels(a: Item, b: Item, c: Item)
    ensures LabelsIn([a, b, c]) ==
      LabelOf(a) + LabelsOf(a.stmt) + LabelOf(b) + LabelsOf(b.stmt) + LabelOf(c) + LabelsOf(c.stmt)
  {
    hide LabelsIn, LabelsOf;
    NothingIn();
    OneInFront(c, []);
    OneInFront(b, [c]);
    OneInFront(a, [b, c]);
    assert [c] + [] == [c] && [b] + [c] == [b, c] && [a] + [b, c] == [a, b, c];
  }

  lemma {:induction false} LeaveBranches(leave: Item)
    requires leave == Item(None, BreakTo(L))
    ensures BranchesTo(For(false, NOTHING, FOREVER, NOTHING, [leave]), L)
  {
    assert ItemBranchesTo([leave][0], L);
    assert BranchesToIn([leave], L);
  }

  /** The loop loses its label behind the block that the goto leaves, so the break to it is an early
      error, without a diagnostic. */
  lemma {:induction false} LabelLostBehindBlocks(a: Store -> Store, c: Store -> (bool, Store))
    ensures var low := LowerFunction(LeaveAhead(a, c), false); low.ok && !LegalSeq(low.code, OUTSIDE)
  {
    hide LowerChunk, LegalSeq, LabelsIn, GotosIn, BranchesTo;
    var items, ctx := LeaveAhead(a, c), FunctionCtx(false);
    LeaveAheadChunk(a, c);
    LeaveAheadLabels(a, c);
    TopReady(items, false);
    GoneLabelRejected(ctx, OUTSIDE, items, 0, 0, TOP_SCOPE, 2);
    LeaveAheadOk(a, c);
    var first := LowerChunk(ctx, items, 0, 0);
    var rest := LowerFrom(ctx, items, 3, first.next);
    assert rest.code == [] && first.code + rest.code == first.code;
  }

  lemma {:induction false} LeaveAheadOk(a: Store -> Store, c: Store -> (bool, Store))
    ensures LowerChunk(FunctionCtx(false), LeaveAhead(a, c), 0, 0).ok
  {
    hide ChunkAt, LowerFrom, LowerStmt, NextInGroup;
    var items, ctx := LeaveAhead(a, c), FunctionCtx(false);
    LeaveAheadChunk(a, c);
    var inner := GroupCtx(ctx, items, 0, 2);
    assert L in inner.forwardGotos by { assert InGroup(items, 0, 2, 2) && items[2].lab.value == L; }
    var before := [JumpIf(c, L), Item(None, Act(a))];
    assert items[0..2] == before;
    BeforeOk(inner, a, c, before);
    var x := LowerFrom(inner, items[0..2], 0, 0);
    var b := NestBlocks(inner, items, 0, 2, 2, x.code, x.next);
    LeaveOk(ctx, items[2].stmt, b.next);
    assert LowerChunk(ctx, items, 0, 0) == LowerGroup(ctx, items, 0, 2, 0);
  }

  lemma {:induction false} BeforeOk(ctx: Ctx, a: Store -> Store, c: Store -> (bool, Store), before: seq<Item>)
    requires before == [JumpIf(c, L), Item(None, Act(a))] && ctx.state.None? && L in ctx.forwardGotos
    ensures LowerFrom(ctx, before, 0, 0).ok
  {
    OneStatement(ctx, Goto(L), 0);
    UnlabelledChunk(before, 0);
    UnlabelledChunk(before, 1);
    PlainLowered(ctx, before, 0, 0);
    PlainLowered(ctx, before, 1, 0);
  }

  lemma {:induction false} LeaveOk(ctx: Ctx, s: Stmt, n: nat)
    requires s == For(false, NOTHING, FOREVER, NOTHING, [Item(None, BreakTo(L))])
    ensures LowerStmt(ctx, s, n).ok
  {
    hide BackwardLabelAt;
    NoneLabelled(s.body);
    OneStatement(ForCtx(ctx, false, n), BreakTo(L), n + 1);
  }
}
