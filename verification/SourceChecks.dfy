/** Conditions on a source list that can be checked before it is lowered, and what they say
    about the ways a statement can complete. */
module SourceChecks {
  import opened Iteration
  import opened GoSource
  import opened GotoAnalysis
  import opened Lowering

  // ----- labels, labelled branches, free branches -----

  function LabelOf(it: Item): multiset<Label>
  {
    if it.lab.Some? then multiset{it.lab.value} else multiset{}
  }

  /** Every label declared inside a statement. */
  function LabelsOf(s: Stmt): multiset<Label>
    decreases s, 1
  {
    match s
    case Block(body) => LabelsIn(body)
    case If(_, thn, els) => LabelsIn(thn) + LabelsIn(els)
    case For(_, _, _, _, body) => LabelsIn(body)
    case Switch(_, clauses) => LabelsInClauses(clauses)
    case RangeFunc(_, _, body) => LabelsIn(body)
    case _ => multiset{}
  }

  function ItemLabels(it: Item): multiset<Label>
    decreases it, 2
  {
    LabelOf(it) + LabelsOf(it.stmt)
  }

  function LabelsIn(items: seq<Item>): multiset<Label>
    decreases items, 0
  {
    if items == [] then multiset{} else ItemLabels(items[0]) + LabelsIn(items[1..])
  }

  function LabelsInClauses(clauses: seq<Clause>): multiset<Label>
    decreases clauses, 0
  {
    if clauses == [] then multiset{} else LabelsIn(clauses[0].body) + LabelsInClauses(clauses[1..])
  }

  /** A labelled break or continue to `l` occurs inside the statement. */
  predicate BranchesTo(s: Stmt, l: Label)
    decreases s, 1
  {
    match s
    case BreakTo(k) => k == l
    case ContinueTo(k) => k == l
    case Block(body) => BranchesToIn(body, l)
    case If(_, thn, els) => BranchesToIn(thn, l) || BranchesToIn(els, l)
    case For(_, _, _, _, body) => BranchesToIn(body, l)
    case Switch(_, clauses) => exists k :: 0 <= k < |clauses| && BranchesToIn(clauses[k].body, l)
    case RangeFunc(_, _, body) => BranchesToIn(body, l)
    case _ => false
  }

  predicate BranchesToIn(items: seq<Item>, l: Label)
    decreases items, 0
  {
    exists k :: 0 <= k < |items| && ItemBranchesTo(items[k], l)
  }

  predicate ItemBranchesTo(it: Item, l: Label)
    decreases it, 2
  {
    BranchesTo(it.stmt, l)
  }

  /** An unlabelled break that leaves the statement. */
  predicate FreeBreak(s: Stmt)
    decreases s, 1
  {
    match s
    case Break => true
    case Block(body) => FreeBreakIn(body)
    case If(_, thn, els) => FreeBreakIn(thn) || FreeBreakIn(els)
    case _ => false
  }

  predicate ItemFreeBreak(it: Item)
    decreases it, 2
  {
    FreeBreak(it.stmt)
  }

  predicate FreeBreakIn(items: seq<Item>)
    decreases items, 0
  {
    exists k :: 0 <= k < |items| && ItemFreeBreak(items[k])
  }

  /** An unlabelled continue that leaves the statement. */
  predicate FreeContinue(s: Stmt)
    decreases s, 1
  {
    match s
    case Continue => true
    case Block(body) => FreeContinueIn(body)
    case If(_, thn, els) => FreeContinueIn(thn) || FreeContinueIn(els)
    case Switch(_, clauses) => exists k :: 0 <= k < |clauses| && FreeContinueIn(clauses[k].body)
    case _ => false
  }

  predicate ItemFreeContinue(it: Item)
    decreases it, 2
  {
    FreeContinue(it.stmt)
  }

  predicate FreeContinueIn(items: seq<Item>)
    decreases items, 0
  {
    exists k :: 0 <= k < |items| && ItemFreeContinue(items[k])
  }

  // ----- what Go's type checker and the iterator protocol guarantee -----

  /** The iterator does not yield again once a yield has returned false. */
  ghost predicate Stops(it: Iterator)
  {
    forall i, st :: it.resume(i, false, st).Finish?
  }

  /** A labelled break or continue to the label of a statement stands in that statement. */
  predicate OwnBranches(items: seq<Item>)
  {
    forall p, k :: 0 <= p < |items| && 0 <= k < |items| && p != k && items[p].lab.Some? ==>
      !ItemBranchesTo(items[k], items[p].lab.value)
  }

  /** Returns carry a value exactly when the function has results, iterators stop, and labelled
      branches stand in what they name. */
  ghost predicate Sane(s: Stmt, hasResult: bool)
    decreases s, 1
  {
    match s
    case Return(e) => e.Some? == hasResult
    case Block(body) => SaneIn(body, hasResult)
    case If(_, thn, els) => SaneIn(thn, hasResult) && SaneIn(els, hasResult)
    case For(_, _, _, _, body) => SaneIn(body, hasResult)
    case Switch(_, clauses) => forall k :: 0 <= k < |clauses| ==> SaneIn(clauses[k].body, hasResult)
    case RangeFunc(it, _, body) => Stops(it) && SaneIn(body, hasResult)
    case _ => true
  }

  ghost predicate ItemSane(it: Item, hasResult: bool)
    decreases it, 2
  {
    Sane(it.stmt, hasResult)
  }

  ghost predicate SaneIn(items: seq<Item>, hasResult: bool)
    decreases items, 0
  {
    OwnBranches(items) && forall k :: 0 <= k < |items| ==> ItemSane(items[k], hasResult)
  }

  // ----- ways a statement can complete -----

  ghost predicate ExitOf(s: Stmt, hasResult: bool, c: Comp)
  {
    match c
    case Broke => FreeBreak(s)
    case Continued => FreeContinue(s)
    case BrokeTo(l) => BranchesTo(s, l)
    case ContinuedTo(l) => BranchesTo(s, l)
    case Jumped(l) => l in GotosOf(s)
    case Returned(v) => v.Some? == hasResult
    case Normal => true
    case Panicked => false
  }

  ghost predicate ExitIn(items: seq<Item>, hasResult: bool, c: Comp)
  {
    match c
    case Broke => FreeBreakIn(items)
    case Continued => FreeContinueIn(items)
    case BrokeTo(l) => BranchesToIn(items, l)
    case ContinuedTo(l) => BranchesToIn(items, l)
    case Jumped(l) => l in GotosIn(items)
    case Returned(v) => v.Some? == hasResult
    case Normal => true
    case Panicked => false
  }

  lemma {:induction false} GotosInAt(items: seq<Item>, l: Label)
    ensures l in GotosIn(items) <==> exists k :: 0 <= k < |items| && l in GotosOf(items[k].stmt)
  {
    if items != [] {
      GotosInAt(items[1..], l);
      if k :| 0 <= k < |items| && l in GotosOf(items[k].stmt) {
        if k > 0 { assert items[1..][k - 1] == items[k]; }
      }
      if l in GotosIn(items[1..]) {
        var k :| 0 <= k < |items[1..]| && l in GotosOf(items[1..][k].stmt);
        assert items[k + 1] == items[1..][k];
      }
    }
  }

  lemma {:induction false} GotosInClauseAt(clauses: seq<Clause>, k: nat, l: Label)
    requires k < |clauses| && l in GotosIn(clauses[k].body)
    ensures l in GotosInClauses(clauses)
  {
    if k > 0 {
      assert clauses[1..][k - 1] == clauses[k];
      GotosInClauseAt(clauses[1..], k - 1, l);
    }
  }

  lemma {:induction false} ExecExits(s: Stmt, own: Option<Label>, st: Store, hasResult: bool)
    requires Sane(s, hasResult)
    ensures var r := Exec(s, own, st); r.Done? ==> ExitOf(s, hasResult, r.comp)
    decreases s, 3
  {
    match s
    case Block(body) => RunExits(body, 0, st, hasResult);
    case If(cond, thn, els) =>
      RunExits(thn, 0, cond(st).1, hasResult);
      RunExits(els, 0, cond(st).1, hasResult);
    case For(_, init, _, _, _) =>
      var step, inv, post := ForStepFn(s, own), (x: Store) => true, (r: Outcome) => r.Done? ==>
        ExitOf(s, hasResult, r.comp);
      forall x: Store ensures Keeps(step, inv, post, x) { ForStepExits(s, own, x, hasResult); }
      LoopInvariant(step, init(st), Diverge, inv, post);
    case Switch(pick, clauses) => ClausesExit(s, pick(st).0, pick(st).1, hasResult);
    case RangeFunc(it, _, _) =>
      var step, inv, post := RangeStepFn(s, own), (x: RangeState) => RangePending(s, hasResult, x),
          (r: Outcome) => r.Done? ==> ExitOf(s, hasResult, r.comp);
      forall x: RangeState ensures Keeps(step, inv, post, x) {
        if inv(x) { RangeStepExits(s, own, x, hasResult); }
      }
      var (i, st1) := it.start(st);
      LoopInvariant(step, RangeState(i, true, Normal, st1), Diverge, inv, post);
    case _ =>
  }

  ghost predicate RangePending(s: Stmt, hasResult: bool, x: RangeState)
  {
    ExitOf(s, hasResult, x.pending)
  }

  lemma {:induction false} ForStepExits(s: Stmt, own: Option<Label>, st: Store, hasResult: bool)
    requires s.For? && Sane(s, hasResult)
    ensures var r := ForStep(s, own, st); r.Stop? && r.r.Done? ==> ExitOf(s, hasResult, r.r.comp)
    decreases s, 1
  {
    RunExits(s.body, 0, s.cond(st).1, hasResult);
  }

  lemma {:induction false} RangeStepExits(s: Stmt, own: Option<Label>, x: RangeState, hasResult: bool)
    requires s.RangeFunc? && Sane(s, hasResult) && RangePending(s, hasResult, x)
    ensures match RangeStep(s, own, x)
            case Next(y) => RangePending(s, hasResult, y)
            case Stop(r) => r.Done? ==> ExitOf(s, hasResult, r.comp)
    decreases s, 1
  {
    match s.it.resume(x.it, x.go, x.st)
    case Finish(_) =>
    case Yield(_, arg, st1) =>
      assert x.go;
      RunExits(s.body, 0, s.bind(arg, st1), hasResult);
  }

  lemma {:induction false} ClausesExit(s: Stmt, i: nat, st: Store, hasResult: bool)
    requires s.Switch? && Sane(s, hasResult)
    ensures var r := RunClauses(s.clauses, i, st); r.Done? ==> ExitOf(s, hasResult, r.comp)
    decreases s, 1, if i < |s.clauses| then |s.clauses| - i else 0
  {
    if i < |s.clauses| {
      RunExits(s.clauses[i].body, 0, st, hasResult);
      var r := RunFrom(s.clauses[i].body, 0, st);
      if r.Done? {
        if r.comp == Normal && s.clauses[i].fallsThrough {
          ClausesExit(s, i + 1, r.st, hasResult);
        } else if r.comp.Jumped? {
          GotosInClauseAt(s.clauses, i, r.comp.lab);
        }
      }
    }
  }

  lemma {:induction false} RunExits(items: seq<Item>, pc: nat, st: Store, hasResult: bool)
    requires SaneIn(items, hasResult)
    ensures var r := RunFrom(items, pc, st); r.Done? ==> ExitIn(items, hasResult, r.comp)
    decreases items, 2
  {
    var step, inv, post := ListStepFn(items), (x: Counter) => true, (r: Outcome) => r.Done? ==>
      ExitIn(items, hasResult, r.comp);
    forall x: Counter ensures Keeps(step, inv, post, x) { ListStepExits(items, x, hasResult); }
    LoopInvariant(step, At(pc, st), Diverge, inv, post);
  }

  lemma {:induction false} ListStepExits(items: seq<Item>, at: Counter, hasResult: bool)
    requires SaneIn(items, hasResult)
    ensures var r := ListStep(items, at); r.Stop? && r.r.Done? ==> ExitIn(items, hasResult, r.r.comp)
    decreases items, 1
  {
    if at.pc < |items| {
      var it := items[at.pc];
      assert ItemSane(it, hasResult);
      ItemExits(it, at.st, hasResult);
      var r := ExecItem(it, at.st);
      if r.Done? && r.comp.Jumped? { GotosInAt(items, r.comp.lab); }
    }
  }

  lemma {:induction false} ItemExits(it: Item, st: Store, hasResult: bool)
    requires ItemSane(it, hasResult)
    ensures var r := ExecItem(it, st); r.Done? ==>
              ExitOf(it.stmt, hasResult, r.comp) && (r.comp.BrokeTo? ==> it.lab != Some(r.comp.lab)) &&
              (r.comp.BrokeTo? ==> ItemBranchesTo(it, r.comp.lab)) &&
              (r.comp.ContinuedTo? ==> ItemBranchesTo(it, r.comp.lab)) &&
              (r.comp == Broke ==> ItemFreeBreak(it)) && (r.comp == Continued ==> ItemFreeContinue(it))
    decreases it, 4
  {
    ExecExits(it.stmt, it.lab, st, hasResult);
  }

  // ----- where a plain break or continue survives the lowering -----

  /** How the context treats a plain break or continue: whether the enclosing for loop was
      named, whether a switch was entered, and whether the statement becomes a `return`. */
  datatype Flow = Flow(named: bool, inSwitch: bool, breakReturns: bool, continueReturns: bool)

  function FlowOf(ctx: Ctx): Flow
  {
    Flow(ctx.loopLabel.Some?, ctx.switchBreak, ctx.range.Some? && ctx.rangeBreak, ctx.range.Some? && ctx.rangeContinue)
  }

  /** A plain break is emitted in a form that also leaves the loops the lowering itself adds. */
  predicate BreakLeaves(f: Flow)
  {
    (f.named && !f.inSwitch) || f.breakReturns
  }

  predicate ContinueLeaves(f: Flow)
  {
    f.named || f.continueReturns
  }

  function ForFlow(f: Flow, named: bool): Flow
  {
    Flow(named, f.inSwitch, false, false)
  }

  function ClauseFlow(f: Flow): Flow
  {
    f.(breakReturns := false, inSwitch := true)
  }

  function RangeFlow(f: Flow): Flow
  {
    Flow(false, f.inSwitch, true, true)
  }

  /** The list starts with its first goto, and one state machine covers all of its gotos. */
  predicate OneCluster(items: seq<Item>)
  {
    JumpsBack(items) && FirstOwnGoto(items, 0) <= FirstTarget(items, 0)
  }

  /** The plain branches that leave the statement also leave the loops the lowering adds. */
  predicate Survives(f: Flow, s: Stmt)
  {
    (FreeBreak(s) ==> BreakLeaves(f)) && (FreeContinue(s) ==> ContinueLeaves(f))
  }

  predicate SurvivesIn(f: Flow, items: seq<Item>, lo: nat, end: nat)
  {
    forall k :: lo <= k <= end && k < |items| ==> Survives(f, items[k].stmt)
  }

  /** Skipping the first statement of the loop behind `idx` is what the goto at `idx` does. */
  predicate SkipsAt(items: seq<Item>, idx: nat)
  {
    idx + 2 < |items| && items[idx].stmt.Goto? && items[idx + 2].lab == Some(items[idx].stmt.lab)
  }

  /** The statement with a label holds no labelled branch to it. */
  predicate LabelUnused(items: seq<Item>, p: nat)
    requires p < |items|
  {
    items[p].lab.Some? ==> !BranchesTo(items[p].stmt, items[p].lab.value)
  }

  /** No label of the machine has the name of the state in front of its first label. */
  predicate NamesApart(items: seq<Item>, start: nat, first: nat, end: nat)
  {
    start < first ==> ENTRY !in LabelsBetween(items, first, end)
  }

  /** The lowering keeps what the lists of a statement do: plain branches survive in the parts of
      a list that become loops, no labelled branch names such a loop, gotos into one skip exactly
      its first statement, and no state is called like the entry of its machine. The condition
      follows the cut of each list, as the lowering does. */
  predicate Faithful(f: Flow, s: Stmt)
    decreases StmtSize(s), 0, 0
  {
    match s
    case Block(body) => FaithfulFrom(f, body, 0)
    case If(_, thn, els) => FaithfulFrom(f, thn, 0) && FaithfulFrom(f, els, 0)
    case For(ranged, _, _, _, body) => FaithfulFrom(ForFlow(f, !ranged && NeedsLoopLabel(body)), body, 0)
    case Switch(_, clauses) => FaithfulClauses(ClauseFlow(f), clauses)
    case RangeFunc(_, _, body) => FaithfulFrom(RangeFlow(f), body, 0)
    case _ => true
  }

  predicate FaithfulClauses(f: Flow, clauses: seq<Clause>)
    decreases ClausesSize(clauses), 0, 0
  {
    clauses == [] || (FaithfulFrom(f, clauses[0].body, 0) && FaithfulClauses(f, clauses[1..]))
  }

  predicate FaithfulFrom(f: Flow, items: seq<Item>, idx: nat)
    decreases Size(items), 3, if idx < |items| then |items| - idx else 0
  {
    idx >= |items| || (FaithfulChunk(f, items, idx) && FaithfulFrom(f, items, NextIdx(ChunkAt(items, idx), idx)))
  }

  predicate FaithfulChunk(f: Flow, items: seq<Item>, idx: nat)
    requires idx < |items|
    decreases Size(items), 2, 0
  {
    SizeAt(items, idx);
    match ChunkAt(items, idx)
    case Plain => Faithful(f, items[idx].stmt)
    case Cluster(first, end) =>
      FaithfulRange(f, items, idx, end) && SurvivesIn(f, items, idx, end) && NamesApart(items, idx, first, end)
    case Leading(end) =>
      FaithfulLoop(f, items, idx + 1, end) && SurvivesIn(f, items, idx + 1, end) && LabelUnused(items, idx + 1) &&
      SkipsAt(items, idx)
    case Group(last) => FaithfulGroup(f, items, idx, last)
    case Backward(end) =>
      FaithfulLoop(f, items, idx, end) && SurvivesIn(f, items, idx, end) && LabelUnused(items, idx)
  }

  predicate FaithfulRange(f: Flow, items: seq<Item>, i: nat, end: nat)
    requires end < |items|
    decreases Size(items), 1, |items| - i
  {
    if i > end then true
    else
      SizeAt(items, i);
      Faithful(f, items[i].stmt) && FaithfulRange(f, items, i + 1, end)
  }

  /** The statements of a loop for the label at `p`. */
  predicate FaithfulLoop(f: Flow, items: seq<Item>, p: nat, end: nat)
    requires p <= end < |items|
    decreases Size(items), 1, 0
  {
    SizeAt(items, p);
    PartSize(items, p + 1, end + 1);
    Faithful(f, items[p].stmt) && FaithfulFrom(f, items[p + 1..end + 1], 0)
  }

  predicate FaithfulGroup(f: Flow, items: seq<Item>, start: nat, last: nat)
    requires start < last < |items| && InGroup(items, start, last, last)
    decreases Size(items), 1, |items| + 1
  {
    var p := NextInGroup(items, start, last, start + 1);
    PartSize(items, start, p);
    SizeAt(items, last);
    FaithfulFrom(f, items[start..p], 0) && FaithfulNest(f, items, start, last, p) && Faithful(f, items[last].stmt)
  }

  /** The pieces behind the label at `p`, up to the last label of the group. */
  predicate FaithfulNest(f: Flow, items: seq<Item>, start: nat, last: nat, p: nat)
    requires p <= last < |items| && InGroup(items, start, last, p) && InGroup(items, start, last, last)
    decreases Size(items), 1, |items| - p
  {
    if p == last then true
    else
      var q := NextInGroup(items, start, last, p + 1);
      SegmentSize(items, p, q);
      FaithfulFrom(f, Segment(items, p, q), 0) && FaithfulNest(f, items, start, last, q)
  }

  predicate FaithfulIn(f: Flow, items: seq<Item>)
  {
    FaithfulFrom(f, items, 0)
  }

  // ----- the conditions together -----

  /** All conditions on a statement that is lowered in a context. */
  ghost predicate Fine(s: Stmt, ctx: Ctx)
  {
    Sane(s, ctx.hasResult) && Faithful(FlowOf(ctx), s)
  }

  /** All conditions on a list from position `idx` on. */
  ghost predicate FineFrom(items: seq<Item>, idx: nat, ctx: Ctx)
  {
    SaneIn(items, ctx.hasResult) && FaithfulFrom(FlowOf(ctx), items, idx)
  }

  lemma {:induction false} SaneAt(items: seq<Item>, k: nat, hasResult: bool)
    requires SaneIn(items, hasResult) && k < |items|
    ensures Sane(items[k].stmt, hasResult)
    ensures forall p :: 0 <= p < |items| && p != k && items[p].lab.Some? ==>
      !BranchesTo(items[k].stmt, items[p].lab.value)
  {
    assert ItemSane(items[k], hasResult);
    forall p | 0 <= p < |items| && p != k && items[p].lab.Some? ensures !BranchesTo(items[k].stmt, items[p].lab.value) {
      assert !ItemBranchesTo(items[k], items[p].lab.value);
    }
  }
}
