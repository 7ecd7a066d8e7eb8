/** How a run of a statement list decomposes into runs of its pieces. */
module ListRuns {
  import opened Iteration
  import opened GoSource
  import opened GotoAnalysis
  import opened SourceChecks
  import opened Sublists

  lemma {:induction false} RunUnfold(items: seq<Item>, pc: nat, st: Store)
    ensures RunFrom(items, pc, st) ==
            if pc >= |items| then Done(Normal, st)
            else
              match ExecItem(items[pc], st)
              case Diverge => Diverge
              case Done(c, st1) =>
                if c == Normal then RunFrom(items, pc + 1, st1)
                else if c.Jumped? && HasLabel(items, c.lab) then RunFrom(items, IndexOf(items, c.lab), st1)
                else Done(c, st1)
  {
    LoopUnfold(ListStepFn(items), At(pc, st), Diverge);
    assert ListStepFn(items)(At(pc, st)) == ListStep(items, At(pc, st));
  }

  lemma {:induction false} RunReaches(items: seq<Item>, a: Counter, b: Counter)
    requires Reaches(ListStepFn(items), a, b)
    ensures RunFrom(items, a.pc, a.st) == RunFrom(items, b.pc, b.st)
  {
    LoopReaches(ListStepFn(items), a, b, Diverge);
  }

  lemma {:induction false} OneStep(items: seq<Item>, a: Counter, b: Counter)
    requires ListStep(items, a) == Next(b)
    ensures Reaches(ListStepFn(items), a, b)
  {
    var f := ListStepFn(items);
    assert f(a) == Next(b);
    assert Iter(f, b, 0) == Next(b);
    assert Iter(f, a, 1) == Next(b);
  }

  lemma {:induction false} ReachesTwice(items: seq<Item>, a: Counter, b: Counter, c: Counter)
    requires Reaches(ListStepFn(items), a, b) && Reaches(ListStepFn(items), b, c)
    ensures Reaches(ListStepFn(items), a, c)
  {
    var f := ListStepFn(items);
    var j: nat :| j > 0 && Iter(f, a, j) == Next(b);
    var k: nat :| k > 0 && Iter(f, b, k) == Next(c);
    IterAdd(f, a, b, j, k);
  }

  // ----- a label that no branch names does not matter -----

  ghost predicate OwnFree(r: Outcome, l: Label)
  {
    r != Diverge ==> r.comp != BrokeTo(l) && r.comp != ContinuedTo(l)
  }

  ghost predicate Resumed(r: Outcome, l: Label)
  {
    r.Done? && r.comp == ContinuedTo(l)
  }

  lemma {:induction false} SameIterSameLoop<S(!new), R>(f: S -> Step<S, R>, g: S -> Step<S, R>, x: S, bot: R)
    requires forall n: nat :: Iter(f, x, n) == Iter(g, x, n)
    ensures Loop(f, x, bot) == Loop(g, x, bot)
  {
    if Halts(f, x) {
      var n: nat :| Iter(f, x, n).Stop?;
      LoopStops(f, x, bot, n);
      LoopStops(g, x, bot, n);
    } else {
      assert forall n: nat :: !Iter(g, x, n).Stop? by {
        forall n: nat ensures !Iter(g, x, n).Stop? { assert Iter(f, x, n) == Iter(g, x, n); }
      }
    }
  }

  lemma {:induction false} ForIterOwn(s: Stmt, l: Label, st: Store, n: nat)
    requires s.For? && !Resumed(Loop(ForStepFn(s, None), st, Diverge), l)
    ensures Iter(ForStepFn(s, None), st, n) == Iter(ForStepFn(s, Some(l)), st, n)
    decreases n
  {
    if n > 0 {
      var f, g := ForStepFn(s, None), ForStepFn(s, Some(l));
      LoopUnfold(f, st, Diverge);
      assert f(st) == ForStep(s, None, st) && g(st) == ForStep(s, Some(l), st);
      assert f(st) == g(st);
      if f(st).Next? { ForIterOwn(s, l, f(st).s, n - 1); }
    }
  }

  lemma {:induction false} RangeIterOwn(s: Stmt, l: Label, x: RangeState, n: nat)
    requires s.RangeFunc? && Stops(s.it) && !Resumed(Loop(RangeStepFn(s, None), x, Diverge), l)
    ensures Iter(RangeStepFn(s, None), x, n) == Iter(RangeStepFn(s, Some(l)), x, n)
    decreases n
  {
    if n > 0 {
      var f, g := RangeStepFn(s, None), RangeStepFn(s, Some(l));
      LoopUnfold(f, x, Diverge);
      assert f(x) == RangeStep(s, None, x) && g(x) == RangeStep(s, Some(l), x);
      if f(x).Next? {
        var y := f(x).s;
        LoopUnfold(f, y, Diverge);
        assert f(y) == RangeStep(s, None, y);
        assert !y.go ==> s.it.resume(y.it, false, y.st).Finish?;
        assert f(x) == g(x);
        RangeIterOwn(s, l, y, n - 1);
      }
    }
  }

  /** When running a statement without its label does not end with a continue to that label, the
      label only ends the breaks to it. */
  lemma {:induction false} OwnLabelBreaks(s: Stmt, l: Label, st: Store)
    requires s.RangeFunc? ==> Stops(s.it)
    requires !Resumed(Exec(s, None, st), l)
    ensures Exec(s, Some(l), st) == Exec(s, None, st)
  {
    match s
    case For(_, init, _, _, _) =>
      forall n: nat ensures Iter(ForStepFn(s, None), init(st), n) == Iter(ForStepFn(s, Some(l)), init(st), n) {
        ForIterOwn(s, l, init(st), n);
      }
      SameIterSameLoop(ForStepFn(s, None), ForStepFn(s, Some(l)), init(st), Diverge);
    case RangeFunc(it, _, _) =>
      var x := RangeState(it.start(st).0, true, Normal, it.start(st).1);
      forall n: nat ensures Iter(RangeStepFn(s, None), x, n) == Iter(RangeStepFn(s, Some(l)), x, n) {
        RangeIterOwn(s, l, x, n);
      }
      SameIterSameLoop(RangeStepFn(s, None), RangeStepFn(s, Some(l)), x, Diverge);
    case _ =>
  }

  /** When running a statement without its label never completes with a branch to that label,
      the label makes no difference. */
  lemma {:induction false} OwnLabelIrrelevant(s: Stmt, l: Label, st: Store)
    requires s.RangeFunc? ==> Stops(s.it)
    requires OwnFree(Exec(s, None, st), l)
    ensures ExecItem(Item(Some(l), s), st) == ExecItem(Item(None, s), st) == Exec(s, None, st)
  {
    OwnLabelBreaks(s, l, st);
  }

  // ----- a piece runs inside its list -----

  /** `sub` is a piece whose statements behave as they do in `items`. */
  ghost predicate RunsAs(items: seq<Item>, a: nat, sub: seq<Item>)
  {
    && a + |sub| <= |items|
    && (forall i, st :: 0 <= i < |sub| ==> ExecItem(sub[i], st) == ExecItem(items[a + i], st))
    && (forall l :: HasLabel(sub, l) ==> HasLabel(items, l) && IndexOf(items, l) == a + IndexOf(sub, l))
  }

  /** Where a run of `items` stands after the piece from `a` completed with `r`. */
  ghost predicate Carries(items: seq<Item>, a: nat, size: nat, st: Store, r: Outcome)
  {
    match r
    case Diverge => RunFrom(items, a, st) == Diverge
    case Done(c, st1) =>
      if c == Normal then
        RunFrom(items, a, st) == RunFrom(items, a + size, st1) &&
        (size > 0 ==> Reaches(ListStepFn(items), At(a, st), At(a + size, st1)))
      else if c.Jumped? && HasLabel(items, c.lab) then
        Reaches(ListStepFn(items), At(a, st), At(IndexOf(items, c.lab), st1))
      else RunFrom(items, a, st) == Done(c, st1)
  }

  lemma {:induction false} StepsInside(items: seq<Item>, a: nat, sub: seq<Item>, c: Counter, n: nat)
    requires RunsAs(items, a, sub)
    requires Iter(ListStepFn(sub), c, n).Next?
    ensures var d := Iter(ListStepFn(sub), c, n).s;
      Iter(ListStepFn(items), At(a + c.pc, c.st), n) == Next(At(a + d.pc, d.st))
    decreases n
  {
    if n > 0 {
      assert ListStepFn(sub)(c) == ListStep(sub, c);
      var x := At(a + c.pc, c.st);
      assert ListStepFn(items)(x) == ListStep(items, x);
      assert c.pc < |sub|;
      assert ExecItem(sub[c.pc], c.st) == ExecItem(items[a + c.pc], c.st);
      var d := ListStep(sub, c).s;
      StepsInside(items, a, sub, d, n - 1);
    }
  }

  lemma {:induction false} StopAfter<S, R>(f: S -> Step<S, R>, s: S, n: nat) returns (m: nat, t: S)
    requires Iter(f, s, n).Stop?
    ensures m < n && Iter(f, s, m) == Next(t) && f(t) == Iter(f, s, n)
    decreases n
  {
    match f(s)
    case Stop(_) => m, t := 0, s;
    case Next(s1) =>
      var m1, t1 := StopAfter(f, s1, n - 1);
      m, t := m1 + 1, t1;
  }

  lemma {:induction false} PieceRuns(items: seq<Item>, a: nat, sub: seq<Item>, st: Store)
    requires RunsAs(items, a, sub)
    ensures Carries(items, a, |sub|, st, RunFrom(sub, 0, st))
  {
    var f, g := ListStepFn(sub), ListStepFn(items);
    if Halts(f, At(0, st)) {
      var n: nat :| Iter(f, At(0, st), n).Stop?;
      LoopStops(f, At(0, st), Diverge, n);
      var m, t := StopAfter(f, At(0, st), n);
      StepsInside(items, a, sub, At(0, st), m);
      var x := At(a + t.pc, t.st);
      LoopAfter(g, At(a, st), x, Diverge, m);
      StoppingStep(items, a, sub, st, m, t);
    } else {
      forall n: nat ensures !Iter(g, At(a, st), n).Stop? { StepsInside(items, a, sub, At(0, st), n); }
      assert !Halts(g, At(a, st));
    }
  }

  lemma {:induction false} StoppingStep(items: seq<Item>, a: nat, sub: seq<Item>, st: Store, m: nat, t: Counter)
    requires RunsAs(items, a, sub) && Iter(ListStepFn(sub), At(0, st), m) == Next(t) && ListStep(sub, t).Stop?
    requires Iter(ListStepFn(items), At(a, st), m) == Next(At(a + t.pc, t.st))
    requires RunFrom(items, a, st) == RunFrom(items, a + t.pc, t.st)
    ensures Carries(items, a, |sub|, st, ListStep(sub, t).r)
  {
    var g, x := ListStepFn(items), At(a + t.pc, t.st);
    CounterBound(sub, At(0, st), m);
    if t.pc == |sub| {
      if m == 0 { assert t == At(0, st); }
    } else {
      assert ExecItem(sub[t.pc], t.st) == ExecItem(items[a + t.pc], t.st);
      RunUnfold(items, a + t.pc, t.st);
      var r := ExecItem(sub[t.pc], t.st);
      if r.Done? && r.comp.Jumped? && HasLabel(items, r.comp.lab) {
        var y := At(IndexOf(items, r.comp.lab), r.st);
        OneStep(items, x, y);
        if m > 0 { ReachesTwice(items, At(a, st), x, y); }
      }
    }
  }

  lemma {:induction false} CounterBound(items: seq<Item>, c: Counter, n: nat)
    requires c.pc <= |items| && Iter(ListStepFn(items), c, n).Next?
    ensures Iter(ListStepFn(items), c, n).s.pc <= |items|
    decreases n
  {
    if n > 0 {
      assert ListStepFn(items)(c) == ListStep(items, c);
      CounterBound(items, ListStep(items, c).s, n - 1);
    }
  }

  lemma {:induction false} PartIndexes(items: seq<Item>, a: nat, sub: seq<Item>)
    requires Part(items, a, sub) && Distinct(LabelsIn(items))
    ensures forall l :: HasLabel(sub, l) ==> HasLabel(items, l) && IndexOf(items, l) == a + IndexOf(sub, l)
  {
    forall l | HasLabel(sub, l) ensures HasLabel(items, l) && IndexOf(items, l) == a + IndexOf(sub, l) {
      var i := IndexOf(sub, l);
      assert items[a + i].lab == Some(l);
      PositionOf(items, a + i, l);
    }
  }

  lemma {:induction false} SliceRunsAs(items: seq<Item>, a: nat, b: nat)
    requires a <= b <= |items| && Distinct(LabelsIn(items))
    ensures RunsAs(items, a, items[a..b])
  {
    PartIndexes(items, a, items[a..b]);
  }

  /** A piece whose first statement lost its label, when that statement does not branch to it. */
  lemma {:induction false} SegmentRunsAs(items: seq<Item>, a: nat, b: nat)
    requires a < b <= |items| && Distinct(LabelsIn(items))
    requires items[a].stmt.RangeFunc? ==> Stops(items[a].stmt.it)
    requires items[a].lab.Some? ==> forall st :: OwnFree(Exec(items[a].stmt, None, st), items[a].lab.value)
    ensures RunsAs(items, a, Segment(items, a, b))
  {
    var sub := Segment(items, a, b);
    PartIndexes(items, a, sub);
    forall i, st | 0 <= i < |sub| ensures ExecItem(sub[i], st) == ExecItem(items[a + i], st) {
      if i == 0 && items[a].lab.Some? {
        OwnLabelIrrelevant(items[a].stmt, items[a].lab.value, st);
        assert items[a] == Item(Some(items[a].lab.value), items[a].stmt);
      }
    }
  }
}
