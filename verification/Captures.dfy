/** How a list runs when the loops that the lowering adds capture branches: a plain break, or one to
    the loop's label, ends the added loop, and a continue repeats it. In a state machine a label with
    the name of the entry state leads back to the entry. */
module Captures {
  import opened Iteration
  import opened GoSource
  import opened Lowering
  import opened SourceChecks
  import opened ListRuns

  /** The part of a list that becomes a state machine, or the loop of the label at `start`. */
  datatype Region =
    | Machine(start: nat, first: nat, end: nat)
    | Labelled(start: nat, end: nat)

  /** The position of the state that statement `pc` belongs to. */
  function StateOf(items: seq<Item>, start: nat, first: nat, pc: nat): nat
  {
    if pc < first then start
    else if pc == first || pc >= |items| || items[pc].lab.Some? then pc
    else StateOf(items, start, first, pc - 1)
  }

  /** Where a captured continue goes on. */
  function Restart(items: seq<Item>, g: Region, pc: nat): nat
  {
    match g
    case Machine(start, first, _) => StateOf(items, start, first, pc)
    case Labelled(start, _) => start
  }

  /** Whether the region has an entry state, and position `k` a label with its name. */
  predicate NamedEntry(items: seq<Item>, g: Region, k: nat)
  {
    g.Machine? && g.start < g.first <= k <= g.end && k < |items| && items[k].lab == Some(ENTRY)
  }

  /** Where the code goes on for position `k`. */
  function Land(items: seq<Item>, g: Region, k: nat): nat
  {
    if NamedEntry(items, g, k) then g.start else k
  }

  /** The statement at the label of an added loop has lost that label. */
  predicate Unlabelled(g: Region, pc: nat)
  {
    g.Labelled? && pc == g.start
  }

  ghost function CaptItem(items: seq<Item>, g: Region, pc: nat, st: Store): Outcome
    requires pc < |items|
  {
    if Unlabelled(g, pc) then Exec(items[pc].stmt, None, st) else ExecItem(items[pc], st)
  }

  ghost function CaptStep(items: seq<Item>, g: Region, f: Flow, c: Counter): Step<Counter, Outcome>
  {
    if !(g.start <= c.pc <= g.end && c.pc < |items|) then Stop(RunFrom(items, c.pc, c.st))
    else
      match CaptItem(items, g, c.pc, c.st)
      case Diverge => Stop(Diverge)
      case Done(k, st) =>
        if k == Normal then Next(At(Land(items, g, c.pc + 1), st))
        else if k.Jumped? && HasLabel(items, k.lab) then Next(At(Land(items, g, IndexOf(items, k.lab)), st))
        else if k == Broke && !BreakLeaves(f) then Next(At(g.end + 1, st))
        else if k == Continued && !ContinueLeaves(f) then Next(At(Restart(items, g, c.pc), st))
        else if Unlabelled(g, c.pc) && k.BrokeTo? && items[c.pc].lab == Some(k.lab) then Next(At(g.end + 1, st))
        else if Unlabelled(g, c.pc) && k.ContinuedTo? && items[c.pc].lab == Some(k.lab) then Next(At(g.start, st))
        else Stop(Done(k, st))
  }

  ghost function CaptFn(items: seq<Item>, g: Region, f: Flow): Counter -> Step<Counter, Outcome>
  {
    c => CaptStep(items, g, f, c)
  }

  /** The run of the list from `pc` with captured branches. */
  ghost function CaptRun(items: seq<Item>, g: Region, f: Flow, pc: nat, st: Store): Outcome
  {
    Loop(CaptFn(items, g, f), At(pc, st), Diverge)
  }

  lemma {:induction false} CaptUnfold(items: seq<Item>, g: Region, f: Flow, pc: nat, st: Store)
    ensures CaptRun(items, g, f, pc, st) ==
            match CaptStep(items, g, f, At(pc, st))
            case Next(d) => CaptRun(items, g, f, d.pc, d.st)
            case Stop(r) => r
  {
    LoopUnfold(CaptFn(items, g, f), At(pc, st), Diverge);
    assert CaptFn(items, g, f)(At(pc, st)) == CaptStep(items, g, f, At(pc, st));
    if CaptStep(items, g, f, At(pc, st)).Next? {
      var d := CaptStep(items, g, f, At(pc, st)).s;
      assert d == At(d.pc, d.st);
    }
  }

  lemma {:induction false} CaptOutside(items: seq<Item>, g: Region, f: Flow, pc: nat, st: Store)
    requires pc > g.end || pc >= |items|
    ensures CaptRun(items, g, f, pc, st) == RunFrom(items, pc, st)
  {
    CaptUnfold(items, g, f, pc, st);
  }

  lemma {:induction false} CaptReaches(items: seq<Item>, g: Region, f: Flow, a: Counter, b: Counter)
    requires Reaches(CaptFn(items, g, f), a, b)
    ensures CaptRun(items, g, f, a.pc, a.st) == CaptRun(items, g, f, b.pc, b.st)
  {
    LoopReaches(CaptFn(items, g, f), a, b, Diverge);
  }

  lemma {:induction false} CaptOne(items: seq<Item>, g: Region, f: Flow, a: Counter, b: Counter)
    requires CaptStep(items, g, f, a) == Next(b)
    ensures Reaches(CaptFn(items, g, f), a, b)
  {
    var step := CaptFn(items, g, f);
    assert step(a) == Next(b);
    assert Iter(step, b, 0) == Next(b);
    assert Iter(step, a, 1) == Next(b);
  }

  lemma {:induction false} CaptTwice(items: seq<Item>, g: Region, f: Flow, a: Counter, b: Counter, c: Counter)
    requires Reaches(CaptFn(items, g, f), a, b) && Reaches(CaptFn(items, g, f), b, c)
    ensures Reaches(CaptFn(items, g, f), a, c)
  {
    var step := CaptFn(items, g, f);
    var j: nat :| j > 0 && Iter(step, a, j) == Next(b);
    var k: nat :| k > 0 && Iter(step, b, k) == Next(c);
    IterAdd(step, a, b, j, k);
  }

  // ----- when nothing is captured -----

  /** No branch of the region is captured, and no label leads to its entry. */
  predicate CapturesNothing(items: seq<Item>, g: Region, f: Flow)
  {
    && SurvivesIn(f, items, g.start, g.end)
    && match g
       case Machine(start, first, end) => NamesApart(items, start, first, end)
       case Labelled(start, _) => start < |items| && LabelUnused(items, start)
  }

  lemma {:induction false} NoEntryNamed(items: seq<Item>, g: Region, f: Flow, k: nat)
    requires CapturesNothing(items, g, f)
    ensures Land(items, g, k) == k
  {
    if NamedEntry(items, g, k) { NamedBetween(items, g, k); }
  }

  lemma {:induction false} NamedBetween(items: seq<Item>, g: Region, k: nat)
    requires NamedEntry(items, g, k)
    ensures ENTRY in LabelsBetween(items, g.first, g.end)
  {
  }

  /** Where the branches of a region survive, the run is the run of the list. */
  lemma {:induction false} NothingCaptured(items: seq<Item>, g: Region, f: Flow, hasResult: bool, pc: nat, st: Store)
    requires SaneIn(items, hasResult) && CapturesNothing(items, g, f)
    ensures CaptRun(items, g, f, pc, st) == RunFrom(items, pc, st)
  {
    var slow, fast := ListStepFn(items), CaptFn(items, g, f);
    var rel, agree := (x: Counter, y: Counter) => x == y, (o: Outcome, q: Outcome) => o == q;
    forall x, y | rel(x, y) ensures Tracks(slow, fast, Diverge, rel, agree, x, y) {
      SameStep(items, g, f, hasResult, x);
    }
    LoopSimulation(slow, fast, Diverge, Diverge, rel, agree, At(pc, st), At(pc, st));
  }

  lemma {:induction false} SameItem(items: seq<Item>, g: Region, f: Flow, hasResult: bool, pc: nat, st: Store)
    requires SaneIn(items, hasResult) && CapturesNothing(items, g, f) && pc < |items|
    ensures CaptItem(items, g, pc, st) == ExecItem(items[pc], st)
    ensures var r := CaptItem(items, g, pc, st);
      Unlabelled(g, pc) && r.Done? && (r.comp.BrokeTo? || r.comp.ContinuedTo?) ==> items[pc].lab != Some(r.comp.lab)
  {
    if Unlabelled(g, pc) {
      var it := items[pc];
      SaneAt(items, pc, hasResult);
      ExecExits(it.stmt, None, st, hasResult);
      if it.lab.Some? {
        assert it == Item(Some(it.lab.value), it.stmt);
        OwnLabelIrrelevant(it.stmt, it.lab.value, st);
      }
    }
  }

  lemma {:induction false} SameStep(items: seq<Item>, g: Region, f: Flow, hasResult: bool, x: Counter)
    requires SaneIn(items, hasResult) && CapturesNothing(items, g, f)
    ensures match CaptFn(items, g, f)(x)
            case Next(y) => Reaches(ListStepFn(items), x, y)
            case Stop(q) => q == Loop(ListStepFn(items), x, Diverge)
  {
    assert CaptFn(items, g, f)(x) == CaptStep(items, g, f, x);
    assert x == At(x.pc, x.st);
    hide CapturesNothing, SaneIn, Land;
    if g.start <= x.pc <= g.end && x.pc < |items| {
      SaneAt(items, x.pc, hasResult);
      ItemExits(items[x.pc], x.st, hasResult);
      SameItem(items, g, f, hasResult, x.pc, x.st);
      SurvivesHere(items, g, f, x.pc);
      forall k: nat ensures Land(items, g, k) == k { NoEntryNamed(items, g, f, k); }
      RunUnfold(items, x.pc, x.st);
      if CaptStep(items, g, f, x).Next? { OneStep(items, x, CaptStep(items, g, f, x).s); }
    }
  }

  lemma {:induction false} SurvivesHere(items: seq<Item>, g: Region, f: Flow, pc: nat)
    requires CapturesNothing(items, g, f) && g.start <= pc <= g.end && pc < |items|
    ensures Survives(f, items[pc].stmt)
  {
  }

  // ----- a piece runs inside its region -----

  /** Where the run stands after the piece from `a` completed with `r`. */
  ghost predicate CaptCarries(items: seq<Item>, g: Region, f: Flow, a: nat, size: nat, st: Store, r: Outcome)
  {
    match r
    case Diverge => CaptRun(items, g, f, a, st) == Diverge
    case Done(c, st1) =>
      if c == Normal then
        if size > 0 then Reaches(CaptFn(items, g, f), At(a, st), At(Land(items, g, a + size), st1)) else st1 == st
      else if c.Jumped? && HasLabel(items, c.lab) then
        Reaches(CaptFn(items, g, f), At(a, st), At(Land(items, g, IndexOf(items, c.lab)), st1))
      else if c == Broke && !BreakLeaves(f) then
        Reaches(CaptFn(items, g, f), At(a, st), At(g.end + 1, st1))
      else if c == Continued && !ContinueLeaves(f) then
        Reaches(CaptFn(items, g, f), At(a, st), At(Restart(items, g, a), st1))
      else CaptRun(items, g, f, a, st) == Done(c, st1)
  }

  /** The statements of the piece lie in the region, behind the label of a loop, and belong to one
      state. */
  ghost predicate Within(items: seq<Item>, g: Region, a: nat, size: nat)
  {
    && g.start <= a && a + size <= g.end + 1 && !Unlabelled(g, a)
    && forall k :: a <= k < a + size ==> Restart(items, g, k) == Restart(items, g, a) && Land(items, g, k) == k
  }

  lemma {:induction false} StepInside(items: seq<Item>, g: Region, f: Flow, a: nat, sub: seq<Item>, c: Counter)
    requires RunsAs(items, a, sub) && Within(items, g, a, |sub|) && ListStep(sub, c).Next?
    ensures c.pc < |sub| && Land(items, g, a + c.pc) == a + c.pc
    ensures var d := ListStep(sub, c).s;
      CaptStep(items, g, f, At(a + c.pc, c.st)) == Next(At(Land(items, g, a + d.pc), d.st))
  {
    hide Land, BreakLeaves, ContinueLeaves, Restart, NamedEntry, ExecItem;
    assert ExecItem(sub[c.pc], c.st) == ExecItem(items[a + c.pc], c.st);
    assert Land(items, g, a + c.pc) == a + c.pc;
  }

  lemma {:induction false} CaptInside(items: seq<Item>, g: Region, f: Flow, a: nat, sub: seq<Item>, c: Counter, n: nat)
    requires RunsAs(items, a, sub) && Within(items, g, a, |sub|)
    requires Iter(ListStepFn(sub), c, n).Next?
    ensures var d := Iter(ListStepFn(sub), c, n).s;
      Iter(CaptFn(items, g, f), At(Land(items, g, a + c.pc), c.st), n) == Next(At(Land(items, g, a + d.pc), d.st))
    decreases n
  {
    hide Land, ListStep, CaptStep, RunsAs, Within;
    if n > 0 {
      assert ListStepFn(sub)(c) == ListStep(sub, c);
      StepInside(items, g, f, a, sub, c);
      var x, d := At(a + c.pc, c.st), ListStep(sub, c).s;
      assert CaptFn(items, g, f)(x) == CaptStep(items, g, f, x);
      CaptInside(items, g, f, a, sub, d, n - 1);
    }
  }

  lemma {:induction false} CaptPiece(items: seq<Item>, g: Region, f: Flow, a: nat, sub: seq<Item>, st: Store)
    requires RunsAs(items, a, sub) && Within(items, g, a, |sub|)
    ensures CaptCarries(items, g, f, a, |sub|, st, RunFrom(sub, 0, st))
  {
    hide RunsAs, Within, Land, ListStep, CaptStep;
    var s, t := ListStepFn(sub), CaptFn(items, g, f);
    if sub == [] {
      RunUnfold(sub, 0, st);
    } else if Halts(s, At(0, st)) {
      hide CaptCarries;
      var n: nat :| Iter(s, At(0, st), n).Stop?;
      LoopStops(s, At(0, st), Diverge, n);
      var m, y := StopAfter(s, At(0, st), n);
      FirstLands(items, g, a, |sub|);
      CaptInside(items, g, f, a, sub, At(0, st), m);
      CounterBound(sub, At(0, st), m);
      CaptStopping(items, g, f, a, sub, st, m, y);
    } else {
      FirstLands(items, g, a, |sub|);
      forall n: nat ensures !Iter(t, At(a, st), n).Stop? { CaptInside(items, g, f, a, sub, At(0, st), n); }
      assert !Halts(t, At(a, st));
    }
  }

  lemma {:induction false} FirstLands(items: seq<Item>, g: Region, a: nat, size: nat)
    requires Within(items, g, a, size) && size > 0
    ensures Land(items, g, a + 0) == a
  {
  }

  /** A step that ends the run of the piece, in the region. */
  lemma {:induction false} StopsInside(items: seq<Item>, g: Region, f: Flow, a: nat, sub: seq<Item>, t: Counter)
    requires RunsAs(items, a, sub) && Within(items, g, a, |sub|) && t.pc < |sub| && ListStep(sub, t).Stop?
    ensures var s := CaptStep(items, g, f, At(a + t.pc, t.st));
      match ListStep(sub, t).r
      case Diverge => s == Stop(Diverge)
      case Done(c, st) =>
        c != Normal &&
        if c.Jumped? && HasLabel(items, c.lab) then s == Next(At(Land(items, g, IndexOf(items, c.lab)), st))
        else if c == Broke && !BreakLeaves(f) then s == Next(At(g.end + 1, st))
        else if c == Continued && !ContinueLeaves(f) then s == Next(At(Restart(items, g, a), st))
        else s == Stop(Done(c, st))
  {
    hide Land, BreakLeaves, ContinueLeaves, Restart, NamedEntry, ExecItem;
    assert ExecItem(sub[t.pc], t.st) == ExecItem(items[a + t.pc], t.st);
    assert Restart(items, g, a + t.pc) == Restart(items, g, a) && Land(items, g, a + t.pc) == a + t.pc;
  }

  lemma {:induction false} CaptStopping(items: seq<Item>, g: Region, f: Flow, a: nat, sub: seq<Item>, st: Store, m: nat,
                                        t: Counter)
    requires RunsAs(items, a, sub) && Within(items, g, a, |sub|) && t.pc <= |sub| && sub != []
    requires Iter(ListStepFn(sub), At(0, st), m) == Next(t) && ListStep(sub, t).Stop?
    requires Iter(CaptFn(items, g, f), At(a, st), m) == Next(At(Land(items, g, a + t.pc), t.st))
    ensures CaptCarries(items, g, f, a, |sub|, st, ListStep(sub, t).r)
  {
    hide RunsAs, CaptStep, Land, BreakLeaves, ContinueLeaves, Restart, Reaches;
    var x := At(a + t.pc, t.st);
    if t.pc < |sub| {
      assert Land(items, g, a + t.pc) == a + t.pc;
      StopsInside(items, g, f, a, sub, t);
      LoopAfter(CaptFn(items, g, f), At(a, st), x, Diverge, m);
      CaptUnfold(items, g, f, a + t.pc, t.st);
      if CaptStep(items, g, f, x).Next? {
        var y := CaptStep(items, g, f, x).s;
        CaptOne(items, g, f, x, y);
        if m > 0 {
          ReachesIn(CaptFn(items, g, f), At(a, st), x, m);
          CaptTwice(items, g, f, At(a, st), x, y);
        }
      }
    } else {
      ReachesIn(CaptFn(items, g, f), At(a, st), At(Land(items, g, a + |sub|), t.st), m);
    }
  }

  // ----- runs that are left by a branch -----

  /** The run stands in the region where the code does the same step. */
  ghost predicate InRegion(items: seq<Item>, g: Region, c: Step<Counter, Outcome>)
  {
    && c.Next? && g.start <= c.s.pc <= g.end && c.s.pc < |items| && !NamedEntry(items, g, c.s.pc)
    && (Unlabelled(g, c.s.pc) && items[c.s.pc].lab.Some? ==>
          OwnFree(Exec(items[c.s.pc].stmt, None, c.s.st), items[c.s.pc].lab.value) && PlainRange(items[c.s.pc]))
  }

  ghost predicate PlainRange(it: Item)
  {
    it.stmt.RangeFunc? ==> Stops(it.stmt.it)
  }

  /** In `n` steps that stay in the region the run of the list comes from `a` to `b`. */
  ghost predicate StepsTo(items: seq<Item>, g: Region, a: Counter, b: Counter, n: nat)
  {
    && Iter(ListStepFn(items), a, n) == Next(b) && !NamedEntry(items, g, b.pc)
    && forall m: nat :: m < n ==> InRegion(items, g, Iter(ListStepFn(items), a, m))
  }

  ghost predicate Comes(items: seq<Item>, g: Region, pc: nat, st: Store, k: nat, st1: Store)
  {
    (exists n: nat :: StepsTo(items, g, At(pc, st), At(k, st1), n)) && g.start <= k <= g.end && k < |items|
  }

  /** The run is left by a plain break or continue of statement `k` of the region. */
  ghost predicate LeftBy(items: seq<Item>, g: Region, pc: nat, st: Store, k: nat, st1: Store, c: Comp, st2: Store)
  {
    Comes(items, g, pc, st, k, st1) && CaptItem(items, g, k, st1) == Done(c, st2) && PlainRange(items[k])
  }

  lemma {:induction false} SameInRegion(items: seq<Item>, g: Region, pc: nat, st: Store)
    requires InRegion(items, g, Next(At(pc, st)))
    ensures CaptItem(items, g, pc, st) == ExecItem(items[pc], st)
    ensures var r := CaptItem(items, g, pc, st);
      Unlabelled(g, pc) && r.Done? && (r.comp.BrokeTo? || r.comp.ContinuedTo?) ==> items[pc].lab != Some(r.comp.lab)
  {
    var it := items[pc];
    if Unlabelled(g, pc) && it.lab.Some? {
      assert it == Item(Some(it.lab.value), it.stmt);
      OwnLabelIrrelevant(it.stmt, it.lab.value, st);
    }
  }

  lemma {:induction false} SameSteps(items: seq<Item>, g: Region, f: Flow, c: Counter, n: nat)
    requires Iter(ListStepFn(items), c, n).Next? && !NamedEntry(items, g, Iter(ListStepFn(items), c, n).s.pc)
    requires forall m: nat :: m < n ==> InRegion(items, g, Iter(ListStepFn(items), c, m))
    ensures Iter(CaptFn(items, g, f), c, n) == Iter(ListStepFn(items), c, n)
    decreases n
  {
    hide NamedEntry;
    if n > 0 {
      var step := ListStepFn(items);
      assert InRegion(items, g, Iter(step, c, 0));
      assert c == At(c.pc, c.st);
      SameInRegion(items, g, c.pc, c.st);
      assert step(c) == ListStep(items, c) && CaptFn(items, g, f)(c) == CaptStep(items, g, f, c);
      var d := ListStep(items, c).s;
      forall m: nat | m < n - 1
        ensures InRegion(items, g, Iter(step, d, m))
      {
        assert Iter(step, c, m + 1) == Iter(step, d, m);
      }
      assert !NamedEntry(items, g, d.pc) by {
        if n > 1 { assert InRegion(items, g, Iter(step, d, 0)); }
      }
      SameSteps(items, g, f, d, n - 1);
    }
  }

  lemma {:induction false} RunTo(items: seq<Item>, g: Region, f: Flow, pc: nat, st: Store, k: nat, st1: Store)
    requires Comes(items, g, pc, st, k, st1)
    ensures RunFrom(items, pc, st) == RunFrom(items, k, st1) &&
      CaptRun(items, g, f, pc, st) == CaptRun(items, g, f, k, st1)
  {
    var n: nat :| StepsTo(items, g, At(pc, st), At(k, st1), n);
    SameSteps(items, g, f, At(pc, st), n);
    LoopAfter(ListStepFn(items), At(pc, st), At(k, st1), Diverge, n);
    LoopAfter(CaptFn(items, g, f), At(pc, st), At(k, st1), Diverge, n);
  }

  /** Apart from the branches to it, the label of a statement makes no difference. */
  lemma {:induction false} LeftItem(items: seq<Item>, g: Region, k: nat, st1: Store)
    requires k < |items| && PlainRange(items[k])
    ensures var r := CaptItem(items, g, k, st1);
      if Unlabelled(g, k) && r.Done? && r.comp.BrokeTo? && items[k].lab == Some(r.comp.lab) then
        ExecItem(items[k], st1) == Done(Normal, r.st)
      else if Unlabelled(g, k) && r.Done? && r.comp.ContinuedTo? && items[k].lab == Some(r.comp.lab) then true
      else ExecItem(items[k], st1) == r
  {
    var it, r := items[k], CaptItem(items, g, k, st1);
    if Unlabelled(g, k) && it.lab.Some? && !Resumed(r, it.lab.value) { OwnLabelBreaks(it.stmt, it.lab.value, st1); }
  }

  lemma {:induction false} BreakRuns(items: seq<Item>, g: Region, f: Flow, pc: nat, st: Store, k: nat, st1: Store,
                                     st2: Store)
    requires LeftBy(items, g, pc, st, k, st1, Broke, st2)
    ensures RunFrom(items, pc, st) == Done(Broke, st2)
    ensures CaptRun(items, g, f, pc, st) == if BreakLeaves(f) then Done(Broke, st2) else RunFrom(items, g.end + 1, st2)
  {
    RunTo(items, g, f, pc, st, k, st1);
    LeftItem(items, g, k, st1);
    RunUnfold(items, k, st1);
    CaptUnfold(items, g, f, k, st1);
    CaptOutside(items, g, f, g.end + 1, st2);
  }

  lemma {:induction false} ContinueRuns(items: seq<Item>, g: Region, f: Flow, pc: nat, st: Store, k: nat, st1: Store,
                                        st2: Store)
    requires LeftBy(items, g, pc, st, k, st1, Continued, st2)
    ensures RunFrom(items, pc, st) == Done(Continued, st2)
    ensures CaptRun(items, g, f, pc, st) ==
      if ContinueLeaves(f) then Done(Continued, st2) else CaptRun(items, g, f, Restart(items, g, k), st2)
  {
    RunTo(items, g, f, pc, st, k, st1);
    LeftItem(items, g, k, st1);
    RunUnfold(items, k, st1);
    CaptUnfold(items, g, f, k, st1);
  }

  /** A break to the label of the added loop: the list goes on behind the statement, the code behind
      the loop. */
  lemma {:induction false} LabelBreakRuns(items: seq<Item>, g: Region, f: Flow, pc: nat, st: Store, l: Label,
                                          st1: Store, st2: Store)
    requires g.Labelled? && LeftBy(items, g, pc, st, g.start, st1, BrokeTo(l), st2) && items[g.start].lab == Some(l)
    ensures RunFrom(items, pc, st) == RunFrom(items, g.start + 1, st2)
    ensures CaptRun(items, g, f, pc, st) == RunFrom(items, g.end + 1, st2)
  {
    RunTo(items, g, f, pc, st, g.start, st1);
    LeftItem(items, g, g.start, st1);
    RunUnfold(items, g.start, st1);
    CaptUnfold(items, g, f, g.start, st1);
    CaptOutside(items, g, f, g.end + 1, st2);
  }

  /** A continue of the label of the added loop: the list goes on with the next turn of the
      statement, the code begins it anew. */
  lemma {:induction false} LabelContinueRuns(items: seq<Item>, g: Region, f: Flow, pc: nat, st: Store, l: Label,
                                             st1: Store, st2: Store)
    requires g.Labelled? && LeftBy(items, g, pc, st, g.start, st1, ContinuedTo(l), st2) && items[g.start].lab == Some(l)
    ensures RunFrom(items, pc, st) == RunFrom(items, g.start, st1)
    ensures CaptRun(items, g, f, pc, st) == CaptRun(items, g, f, g.start, st2)
  {
    RunTo(items, g, f, pc, st, g.start, st1);
    CaptUnfold(items, g, f, g.start, st1);
  }

  /** A run that comes to the label with the name of the entry state. */
  ghost predicate ComesNamed(items: seq<Item>, g: Region, pc: nat, st: Store, k: nat, st1: Store, e: nat, st2: Store)
  {
    Comes(items, g, pc, st, k, st1) && InRegion(items, g, Next(At(k, st1))) && NamedEntry(items, g, e) &&
    ListStep(items, At(k, st1)) == Next(At(e, st2))
  }

  /** The list goes on there, the code at the entry. */
  lemma {:induction false} NamedRuns(items: seq<Item>, g: Region, f: Flow, pc: nat, st: Store, k: nat, st1: Store,
                                     e: nat, st2: Store)
    requires ComesNamed(items, g, pc, st, k, st1, e, st2)
    ensures RunFrom(items, pc, st) == RunFrom(items, e, st2)
    ensures CaptRun(items, g, f, pc, st) == CaptRun(items, g, f, g.start, st2)
  {
    RunTo(items, g, f, pc, st, k, st1);
    SameInRegion(items, g, k, st1);
    RunUnfold(items, k, st1);
    CaptUnfold(items, g, f, k, st1);
  }
}
