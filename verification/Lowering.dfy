/** The lowering of statement lists, branches and returns (compiler/lowering.go), with the
    shape the emitter gives switch bodies and range-over-func loops
    (compiler/typescript-emitter.go). */
module Lowering {
  import opened GoSource
  import opened JsTarget
  import opened GotoAnalysis

  /** The labels a state cluster dispatches on, and the number of its variable and loop. */
  datatype StateRef = StateRef(labels: set<Label>, id: nat)

  /** The part of lowerFileContext that branches depend on. `range` is the return branch of
      the innermost enclosing range-over-func body. */
  datatype Ctx = Ctx(
    state: Option<StateRef>,
    forwardGotos: set<Label>,
    gotoLabels: set<Label>,
    loopLabel: Option<nat>,
    switchBreak: bool,
    range: Option<nat>,
    rangeBreak: bool,
    rangeContinue: bool,
    hasResult: bool)

  const ENTRY: string := "__entry"

  /** Emitted code, the next free number of the name supply, and whether every branch was
      supported; when not, a diagnostic is reported. */
  datatype Low = Low(code: seq<JS>, next: nat, ok: bool)

  function Then(a: Low, b: Low): Low
  {
    Low(a.code + b.code, b.next, a.ok && b.ok)
  }

  function FunctionCtx(hasResult: bool): Ctx
  {
    Ctx(None, {}, {}, None, false, None, false, false, hasResult)
  }

  // ----- branches -----

  function BreakStmt(ctx: Ctx): JS
  {
    if ctx.loopLabel.Some? && !ctx.switchBreak then JBreakTo(LoopName(ctx.loopLabel.value))
    else if ctx.range.Some? && ctx.rangeBreak then JReturn(RetBool(false))
    else JBreak
  }

  function ContinueStmt(ctx: Ctx): JS
  {
    if ctx.loopLabel.Some? then JContinueTo(LoopName(ctx.loopLabel.value))
    else if ctx.range.Some? && ctx.rangeContinue then JReturn(RetBool(true))
    else JContinue
  }

  function GotoStmts(ctx: Ctx, l: Label, n: nat): Low
  {
    if ctx.state.Some? && l in ctx.state.value.labels then
      Low([JSet(GotoState(ctx.state.value.id), Str(l)), JContinueTo(GotoLoop(ctx.state.value.id))], n, true)
    else if l in ctx.forwardGotos then Low([JBreakTo(Src(l))], n, true)
    else if l in ctx.gotoLabels then Low([JContinueTo(Src(l))], n, true)
    else Low([], n, false)
  }

  function ReturnStmts(ctx: Ctx, e: Option<Store -> Value>): seq<JS>
  {
    match ctx.range
    case None => [JReturn(if e.Some? then RetVal(e.value) else RetVoid)]
    case Some(r) =>
      [JSet(RangeReturn(r), Bool(true))] +
      (if e.Some? then [JSetResult(RangeReturnValue(r), e.value)] else []) +
      [JReturn(RetBool(false))]
  }

  // ----- contexts of nested bodies -----

  /** A for statement needs a name for its own loop when its body has backward gotos. */
  predicate NeedsLoopLabel(body: seq<Item>)
  {
    exists p :: 0 <= p < |body| && BackwardLabelAt(body, p)
  }

  function ForCtx(ctx: Ctx, named: bool, n: nat): Ctx
  {
    ctx.(loopLabel := if named then Some(n) else None, rangeBreak := false, rangeContinue := false)
  }

  function ClauseCtx(ctx: Ctx): Ctx
  {
    ctx.(rangeBreak := false, switchBreak := true)
  }

  function RangeCtx(ctx: Ctx, n: nat): Ctx
  {
    ctx.(loopLabel := None, range := Some(n), rangeBreak := true, rangeContinue := true)
  }

  // ----- statements -----

  function LowerStmt(ctx: Ctx, s: Stmt, n: nat): (r: Low)
    ensures r.next >= n
    decreases StmtSize(s), 0, 0
  {
    match s
    case Empty => Low([], n, true)
    case Act(run) => Low([JAct(run)], n, true)
    case Block(body) =>
      var b := LowerFrom(ctx, body, 0, n);
      Low([JBlock(b.code)], b.next, b.ok)
    case If(cond, thn, els) =>
      var a := LowerFrom(ctx, thn, 0, n);
      var b := LowerFrom(ctx, els, 0, a.next);
      Low([JIf(cond, a.code, b.code)], b.next, a.ok && b.ok)
    case For(ranged, init, cond, post, body) =>
      var named := !ranged && NeedsLoopLabel(body);
      var b := LowerFrom(ForCtx(ctx, named, n), body, 0, n + 1);
      var loop := JLoop(init, cond, post, b.code);
      Low([if named then JLabeled(LoopName(n), loop) else loop], b.next, b.ok)
    case Switch(pick, clauses) =>
      var (cases, next, ok) := LowerClauses(ClauseCtx(ctx), clauses, n);
      Low([JSwitch(ByStore(pick), cases)], next, ok)
    case RangeFunc(it, bind, body) =>
      var b := LowerFrom(RangeCtx(ctx, n), body, 0, n + 1);
      Low(RangeCode(ctx, it, bind, b.code, n), b.next, b.ok)
    case Break => Low([BreakStmt(ctx)], n, true)
    case Continue => Low([ContinueStmt(ctx)], n, true)
    case BreakTo(l) => Low([JBreakTo(Src(l))], n, true)
    case ContinueTo(l) => Low([JContinueTo(Src(l))], n, true)
    case Goto(l) => GotoStmts(ctx, l, n)
    case Return(e) => Low(ReturnStmts(ctx, e), n, true)
  }

  /** `let flag = false`, the call with the body as callback, and the propagation of a return. */
  function RangeCode(ctx: Ctx, it: Iterator, bind: (int, Store) -> Store, body: seq<JS>, n: nat): seq<JS>
  {
    [JSet(RangeReturn(n), Bool(false))] +
    (if ctx.hasResult then [JSet(RangeReturnValue(n), Undefined)] else []) +
    [JCallRange(it, bind, body + [JReturn(RetBool(true))]),
     JIfVar(RangeReturn(n), true, RangeReturnCode(ctx, n))]
  }

  function RangeReturnCode(ctx: Ctx, n: nat): seq<JS>
  {
    match ctx.range
    case Some(p) =>
      [JSet(RangeReturn(p), Bool(true))] +
      (if ctx.hasResult then [JCopy(RangeReturnValue(p), RangeReturnValue(n))] else []) +
      [JReturn(RetBool(false))]
    case None => [JReturn(if ctx.hasResult then RetVar(RangeReturnValue(n)) else RetVoid)]
  }

  /** The emitter ends each clause with `break` unless the source clause falls through. */
  function LowerClauses(ctx: Ctx, clauses: seq<Clause>, n: nat): (r: (seq<JCase>, nat, bool))
    ensures r.1 >= n && |r.0| == |clauses|
    decreases ClausesSize(clauses), 0, 0
  {
    if clauses == [] then ([], n, true)
    else
      var b := LowerFrom(ctx, clauses[0].body, 0, n);
      var (rest, next, ok) := LowerClauses(ctx, clauses[1..], b.next);
      ([JCase(b.code + (if clauses[0].fallsThrough then [] else [JBreak]))] + rest, next, b.ok && ok)
  }

  predicate RendersAsBlock(s: Stmt)
  {
    s.Block? || s.Switch? || s.RangeFunc?
  }

  /** A labelled statement keeps its label in front of the first emitted statement, or of a
      block around all of them. */
  function LowerItem(ctx: Ctx, it: Item, n: nat): (r: Low)
    ensures r.next >= n
    decreases StmtSize(it.stmt), 1, 0
  {
    var a := LowerStmt(ctx, it.stmt, n);
    if it.lab.None? || a.code == [] then a
    else if RendersAsBlock(it.stmt) then a.(code := [JLabeled(Src(it.lab.value), JBlock(a.code))])
    else a.(code := [JLabeled(Src(it.lab.value), a.code[0])] + a.code[1..])
  }

  /** Statement lists from position `idx` on (lowerStmtListAfter). */
  function LowerFrom(ctx: Ctx, items: seq<Item>, idx: nat, n: nat): (r: Low)
    ensures r.next >= n
    decreases Size(items), 3, if idx < |items| then |items| - idx else 0
  {
    if idx >= |items| then Low([], n, true)
    else
      var a := LowerChunk(ctx, items, idx, n);
      Then(a, LowerFrom(ctx, items, NextIdx(ChunkAt(items, idx), idx), a.next))
  }

  /** The part of a list that is lowered as a unit when the lowering stands at `idx`. */
  function LowerChunk(ctx: Ctx, items: seq<Item>, idx: nat, n: nat): (r: Low)
    requires idx < |items|
    ensures r.next >= n
    decreases Size(items), 2, 0
  {
    SizeAt(items, idx);
    match ChunkAt(items, idx)
    case Plain => LowerItem(ctx, items[idx], n)
    case Cluster(first, end) => LowerCluster(ctx, items, idx, first, end, n)
    case Leading(end) => LowerLeading(ctx, items, idx, end, n)
    case Group(last) => LowerGroup(ctx, items, idx, last, n)
    case Backward(end) => LowerBackward(ctx, items, idx, end, n)
  }

  // ----- state clusters -----

  function LabelsBetween(items: seq<Item>, i: nat, end: nat): set<Label>
  {
    set p | i <= p < |items| && p <= end && items[p].lab.Some? :: items[p].lab.value
  }

  /** The next labelled position from `i` on, or `end + 1`. */
  function NextLabel(items: seq<Item>, i: nat, end: nat): (j: nat)
    requires i <= end + 1 <= |items|
    ensures i <= j <= end + 1
    ensures j <= end ==> items[j].lab.Some?
    ensures forall k :: i <= k < j ==> items[k].lab.None?
    decreases end + 1 - i
  {
    if i == end + 1 || items[i].lab.Some? then i else NextLabel(items, i + 1, end)
  }

  function StateCtx(ctx: Ctx, items: seq<Item>, first: nat, end: nat, n: nat): Ctx
  {
    ctx.(state := Some(StateRef(LabelsBetween(items, first, end), n)))
  }

  function GoState(id: nat, state: string): seq<JS>
  {
    [JSet(GotoState(id), Str(state)), JContinueTo(GotoLoop(id))]
  }

  datatype Segments = Segments(values: seq<string>, cases: seq<JCase>, next: nat, ok: bool)

  function LowerCluster(ctx: Ctx, items: seq<Item>, start: nat, first: nat, end: nat, n: nat): (r: Low)
    requires first <= end < |items| && items[first].lab.Some?
    ensures r.next >= n
    decreases Size(items), 1, |items| + 2
  {
    var t := ClusterTable(ctx, items, start, first, end, n);
    Low(ClusterCode(n, t.values, t.cases), t.next, t.ok)
  }

  /** The states and their cases; statements in front of the first label get a state of their own. */
  function ClusterTable(ctx: Ctx, items: seq<Item>, start: nat, first: nat, end: nat, n: nat): (r: Segments)
    requires first <= end < |items| && items[first].lab.Some?
    ensures r.next >= n && |r.values| == |r.cases| && r.values != []
    decreases Size(items), 1, |items| + 1
  {
    var inner := StateCtx(ctx, items, first, end, n);
    if start < first then
      PartSize(items, start, first);
      var b := LowerFrom(inner, items[start..first], 0, n + 1);
      var tail := LowerSegments(inner, items, first, end, n, b.next);
      Segments([ENTRY] + tail.values, [JCase(b.code + CaseTail(n, items, first, end))] + tail.cases, tail.next, b.ok &&
               tail.ok)
    else LowerSegments(inner, items, first, end, n, n + 1)
  }

  /** The end of a case: the step to the state of the next label, or out of the loop. The
      emitter puts a `break` behind every case. */
  function CaseTail(n: nat, items: seq<Item>, next: nat, end: nat): seq<JS>
    requires end < |items| && (next <= end ==> items[next].lab.Some?)
  {
    (if next <= end then GoState(n, items[next].lab.value) + [JBreak] else [JBreakTo(GotoLoop(n)), JBreak])
  }

  function ClusterCode(n: nat, values: seq<string>, cases: seq<JCase>): seq<JS>
    requires values != []
  {
    [JSet(GotoState(n), Str(values[0])),
     JLabeled(GotoLoop(n), JLoop(NOTHING, FOREVER, NOTHING, [JSwitch(ByVar(GotoState(n), values), cases), JBreak]))]
  }

  /** One case for each label from position `i` on. */
  function LowerSegments(ctx: Ctx, items: seq<Item>, i: nat, end: nat, id: nat, n: nat): (r: Segments)
    requires i <= end < |items| && items[i].lab.Some?
    ensures r.next >= n && |r.values| == |r.cases| && r.values != []
    decreases Size(items), 1, |items| - i
  {
    var j := NextLabel(items, i + 1, end);
    SegmentSize(items, i, j);
    var b := LowerFrom(ctx, Segment(items, i, j), 0, n);
    var case0 := JCase(b.code + CaseTail(id, items, j, end));
    if j <= end then
      var rest := LowerSegments(ctx, items, j, end, id, b.next);
      Segments([items[i].lab.value] + rest.values, [case0] + rest.cases, rest.next, b.ok && rest.ok)
    else Segments([items[i].lab.value], [case0], b.next, b.ok)
  }

  // ----- labelled loops -----

  function LoopCode(l: Label, body: seq<JS>): seq<JS>
  {
    [JLabeled(Src(l), JLoop(NOTHING, FOREVER, NOTHING, body + [JBreak]))]
  }

  function BackwardCtx(ctx: Ctx, items: seq<Item>): Ctx
  {
    ctx.(gotoLabels := ctx.gotoLabels + BackwardLabels(items))
  }

  function LowerBackward(ctx: Ctx, items: seq<Item>, idx: nat, end: nat, n: nat): (r: Low)
    requires idx <= end < |items| && items[idx].lab.Some?
    ensures r.next >= n
    decreases Size(items), 1, 0
  {
    SizeAt(items, idx);
    PartSize(items, idx + 1, end + 1);
    var inner := BackwardCtx(ctx, items);
    var a := LowerStmt(inner, items[idx].stmt, n);
    var b := LowerFrom(inner, items[idx + 1..end + 1], 0, a.next);
    Low(LoopCode(items[idx].lab.value, a.code + b.code), b.next, a.ok && b.ok)
  }

  /** A goto at `idx` into the loop behind it: the first pass skips the loop's first statement. */
  function LowerLeading(ctx: Ctx, items: seq<Item>, idx: nat, end: nat, n: nat): (r: Low)
    requires idx + 1 <= end < |items| && items[idx + 1].lab.Some?
    ensures r.next >= n
    decreases Size(items), 1, 0
  {
    SizeAt(items, idx + 1);
    PartSize(items, idx + 2, end + 1);
    var inner := BackwardCtx(ctx, items);
    var a := LowerStmt(inner, items[idx + 1].stmt, n + 1);
    var b := LowerFrom(inner, items[idx + 2..end + 1], 0, a.next);
    Low([JSet(Skip(n), Bool(true))] +
        LoopCode(items[idx + 1].lab.value,
                 [JIfVar(Skip(n), false, a.code), JSet(Skip(n), Bool(false))] + b.code),
        b.next, a.ok && b.ok)
  }

  // ----- nested labelled blocks -----

  function GroupCtx(ctx: Ctx, items: seq<Item>, start: nat, last: nat): Ctx
  {
    ctx.(forwardGotos := ctx.forwardGotos + GroupLabels(items, start, last))
  }

  /** The next position from `i` on whose label is in the group. */
  function NextInGroup(items: seq<Item>, start: nat, last: nat, i: nat): (k: nat)
    requires i <= last < |items| && InGroup(items, start, last, last)
    ensures i <= k <= last && InGroup(items, start, last, k)
    ensures forall j :: i <= j < k ==> !InGroup(items, start, last, j)
    decreases last - i
  {
    if InGroup(items, start, last, i) then i else NextInGroup(items, start, last, i + 1)
  }

  function LowerGroup(ctx: Ctx, items: seq<Item>, start: nat, last: nat, n: nat): (r: Low)
    requires start < last < |items| && InGroup(items, start, last, last)
    ensures r.next >= n
    decreases Size(items), 1, |items| + 1
  {
    var inner := GroupCtx(ctx, items, start, last);
    var p := NextInGroup(items, start, last, start + 1);
    PartSize(items, start, p);
    SizeAt(items, last);
    var a := LowerFrom(inner, items[start..p], 0, n);
    var b := NestBlocks(inner, items, start, last, p, a.code, a.next);
    var c := LowerStmt(ctx, items[last].stmt, b.next);
    Low(b.code + c.code, c.next, a.ok && b.ok && c.ok)
  }

  /** Wraps `before` in the block of the label at `p`, and goes on up to the last label. */
  function NestBlocks(ctx: Ctx, items: seq<Item>, start: nat, last: nat, p: nat, before: seq<JS>, n: nat): (r: Low)
    requires p <= last < |items| && InGroup(items, start, last, p) && InGroup(items, start, last, last)
    ensures r.next >= n
    decreases Size(items), 1, |items| - p
  {
    var block := [JLabeled(Src(items[p].lab.value), JBlock(before))];
    if p == last then Low(block, n, true)
    else
      var q := NextInGroup(items, start, last, p + 1);
      SegmentSize(items, p, q);
      var a := LowerFrom(ctx, Segment(items, p, q), 0, n);
      var b := NestBlocks(ctx, items, start, last, q, block + a.code, a.next);
      Low(b.code, b.next, a.ok && b.ok)
  }
}
