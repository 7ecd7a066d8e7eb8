/** The loops and blocks the lowering adds follow the list they stand for: one pass of a
    generated loop is a run of a piece of the list, from label to label. */
module Regions {
  import opened Iteration
  import opened GoSource
  import opened JsTarget
  import opened GotoAnalysis
  import opened Lowering
  import opened SourceChecks
  import opened Sublists
  import opened ListRuns
  import opened Captures
  import opened Simulation

  /** A generated loop named `own` that stands for the list up to `end` is left: normally the
      list goes on behind `end`, otherwise with a completion of the list. */
  ghost predicate Leaves(ctx: Ctx, n: nat, items: seq<Item>, end: nat, own: Name, ts: JState, o: Outcome, q: JOutcome)
  {
    match q
    case JDiverge => o == Diverge
    case JDone(j, x) =>
      if j == JNormal || j == JBrokeTo(own) then o == RunFrom(items, end + 1, x.user) && Kept(n, ts.vars, x.vars, {})
      else o.Done? && o.st == x.user && o.comp != Normal && Emitted(ctx, o.comp, j, x.vars) &&
           Kept(n, ts.vars, x.vars, Touched(ctx, o.comp))
  }

  lemma {:induction false} LeavesFollows(ctx: Ctx, n: nat, items: seq<Item>, end: nat, own: Name, ts: JState,
                                         o: Outcome, loop: JS)
    requires Leaves(ctx, n, items, end, own, ts, o, JExec(loop, {own}, ts))
    ensures Follows(ctx, n, ts, o, Onward(items, end + 1), JExec(JLabeled(own, loop), {}, ts))
  {
    assert {} + {own} == {own};
  }

  function Inside(env: Env, own: Name): Env
  {
    Env(env.breaks + {own}, env.continues + {own}, true, true)
  }

  lemma {:induction false} KeptTwice(n: nat, m: nat, a: map<Name, Val>, b: map<Name, Val>, c: map<Name, Val>,
                                     but: set<Name>)
    requires n <= m && Kept(n, a, b, {}) && Kept(m, b, c, but)
    ensures Kept(n, a, c, but)
  {
    forall x | Below(x, n) && x !in but ensures Lookup(c, x) == Lookup(a, x) {
      assert Below(x, m);
    }
  }

  // ----- state clusters -----

  /** The state variable names the position `pc`. */
  ghost predicate StateNames(items: seq<Item>, start: nat, first: nat, end: nat, n: nat, pc: nat, vars: map<Name, Val>)
  {
    if pc < first then pc == start && Lookup(vars, GotoState(n)) == Str(ENTRY)
    else
      && pc <= end && pc < |items| && items[pc].lab.Some? && Lookup(vars, GotoState(n)) == Str(items[pc].lab.value)
      && !NamedEntry(items, Machine(start, first, end), pc)
  }

  /** With its label in the state variable the dispatch goes on at position `next`. */
  lemma {:induction false} NamesLanding(items: seq<Item>, start: nat, first: nat, end: nat, n: nat, next: nat,
                                        vars: map<Name, Val>)
    requires start <= first <= next <= end && next < |items| && items[next].lab.Some?
    requires Lookup(vars, GotoState(n)) == Str(items[next].lab.value)
    ensures StateNames(items, start, first, end, n, Land(items, Machine(start, first, end), next), vars)
  {
  }

  ghost predicate ClusterRel(items: seq<Item>, start: nat, first: nat, end: nat, n: nat, ts: JState, at: Counter,
                             x: JState)
  {
    at.st == x.user && StateNames(items, start, first, end, n, at.pc, x.vars) && Kept(n, ts.vars, x.vars, {})
  }

  /** A case of the dispatch ends with the next state set, or by leaving the loop; a captured break
      leaves the switch, and a captured continue repeats the state. */
  ghost predicate CaseOk(ctx: Ctx, n: nat, items: seq<Item>, start: nat, first: nat, end: nat, ts: JState, pc: nat,
                         x: JState, r: JOutcome)
  {
    var g, f := Machine(start, first, end), FlowOf(ctx);
    if r.JDone? && (r.comp == JContinuedTo(GotoLoop(n)) || r.comp == JContinued) then
      exists b: Counter ::
        Reaches(CaptFn(items, g, f), At(pc, x.user), b) && ClusterRel(items, start, first, end, n, ts, b, r.ts)
    else if r.JDone? && r.comp == JBroke then
      CaptRun(items, g, f, pc, x.user) == RunFrom(items, end + 1, r.ts.user) && Kept(n, ts.vars, r.ts.vars, {})
    else
      (r.JDone? ==> r.comp != JNormal) &&
      Leaves(ctx, n, items, end, GotoLoop(n), ts, CaptRun(items, g, f, pc, x.user), r)
  }

  lemma {:induction false} ClusterCompletion(ctx: Ctx, env: Env, items: seq<Item>, first: nat, end: nat, n: nat,
                                             c: Comp, j: JComp, ts: JState)
    requires first <= end < |items| && Ready(ctx, env, LabelsIn(items), n)
    requires c != Normal && Emitted(StateCtx(ctx, items, first, end, n), c, j, ts.vars)
    requires Lands(JDone(j, ts), {}, Inside(env, GotoLoop(n)))
    ensures var inner := StateCtx(ctx, items, first, end, n);
      if c.Jumped? && c.lab in LabelsBetween(items, first, end) then
        j == JContinuedTo(GotoLoop(n)) && Lookup(ts.vars, GotoState(n)) == Str(c.lab) &&
        Touched(inner, c) == {GotoState(n)}
      else if c == Broke && !BreakLeaves(FlowOf(ctx)) then j == JBroke && Touched(inner, c) == {}
      else if c == Continued && !ContinueLeaves(FlowOf(ctx)) then j == JContinued && Touched(inner, c) == {}
      else
        && Emitted(ctx, c, j, ts.vars) && Touched(inner, c) == Touched(ctx, c) && !(c.Jumped? && HasLabel(items, c.lab))
        && j != JNormal && j != JBroke && j != JContinued && j != JContinuedTo(GotoLoop(n))
        && j != JBrokeTo(GotoLoop(n))
  {
    match c
    case Broke =>
    case Continued =>
    case BrokeTo(_) =>
    case ContinuedTo(_) =>
    case Returned(_) =>
    case Jumped(l) =>
      if l !in LabelsBetween(items, first, end) && HasLabel(items, l) {
        LabelOnce(items, IndexOf(items, l), IndexOf(items, l), l);
      }
  }

  lemma {:induction false} TailRuns(n: nat, items: seq<Item>, next: nat, end: nat, x: JState)
    requires end < |items| && (next <= end ==> items[next].lab.Some?)
    ensures JRun(CaseTail(n, items, next, end), x) ==
      if next <= end then JDone(JContinuedTo(GotoLoop(n)),
                                x.(vars := x.vars[GotoState(n) := Str(items[next].lab.value)]))
      else JDone(JBrokeTo(GotoLoop(n)), x)
  {
    var tail := CaseTail(n, items, next, end);
    if next <= end {
      var y := x.(vars := x.vars[GotoState(n) := Str(items[next].lab.value)]);
      assert JExec(tail[0], {}, x) == JDone(JNormal, y);
      assert tail[1..] == [JContinueTo(GotoLoop(n)), JBreak];
      assert JExec(tail[1..][0], {}, y) == JDone(JContinuedTo(GotoLoop(n)), y);
    } else {
      assert JExec(tail[0], {}, x) == JDone(JBrokeTo(GotoLoop(n)), x);
    }
  }

  /** One case of the dispatch: the code of the piece from `pc`, then the step to the next label. */
  lemma {:induction false} CaseFollows(ctx: Ctx, env: Env, items: seq<Item>, start: nat, first: nat, end: nat, n: nat,
                                       m: nat, pc: nat, seg: seq<Item>, code: seq<JS>, ts: JState, x: JState)
    requires start <= first <= end < |items| && Ready(ctx, env, LabelsIn(items), n) && n < m
    requires |seg| > 0 && RunsAs(items, pc, seg) && Within(items, Machine(start, first, end), pc, |seg|)
    requires StateOf(items, start, first, pc) == pc
    requires first <= pc + |seg| <= end + 1 && (pc + |seg| <= end ==> items[pc + |seg|].lab.Some?)
    requires BodyFollows(StateCtx(ctx, items, first, end, n), m, seg, code) && LegalSeq(code, Inside(env, GotoLoop(n)))
    requires ClusterRel(items, start, first, end, n, ts, At(pc, x.user), x)
    ensures CaseOk(ctx, n, items, start, first, end, ts, pc, x, JRun(code + CaseTail(n, items, pc + |seg|, end), x))
  {
    hide LabelsIn, BreakLeaves, ContinueLeaves, RunsAs, Legal, LegalSeq, Ready, RunFrom, JRun, CaseTail, CaptRun,
         Within, StateOf;
    ReadyDistinct(ctx, env, LabelsIn(items), n);
    var g, f := Machine(start, first, end), FlowOf(ctx);
    var inner, next := StateCtx(ctx, items, first, end, n), pc + |seg|;
    var tail := CaseTail(n, items, next, end);
    var src, r := RunFrom(seg, 0, x.user), JRun(code, x);
    assert Follows(inner, m, x, src, Ends(), r);
    CaptPiece(items, g, f, pc, seg, x.user);
    LegalSeqLands(code, Inside(env, GotoLoop(n)), x);
    JRunConcat(code, tail, x);
    if r.JDone? {
      if r.comp == JNormal {
        CaseGoesOn(ctx, env, items, start, first, end, n, m, pc, next, ts, x, r.ts);
      } else {
        CaseLeaves(ctx, env, items, start, first, end, n, m, pc, |seg|, src, ts, x, r);
      }
    }
  }

  /** A case that comes to its end. */
  lemma {:induction false} CaseGoesOn(ctx: Ctx, env: Env, items: seq<Item>, start: nat, first: nat, end: nat, n: nat,
                                      m: nat, pc: nat, next: nat, ts: JState, x: JState, y: JState)
    requires start <= first <= end < |items| && n < m && first <= next <= end + 1
    requires (next <= end ==> items[next].lab.Some?)
    requires ClusterRel(items, start, first, end, n, ts, At(pc, x.user), x) && Kept(m, x.vars, y.vars, {})
    requires var g := Machine(start, first, end);
      Reaches(CaptFn(items, g, FlowOf(ctx)), At(pc, x.user), At(Land(items, g, next), y.user))
    ensures CaseOk(ctx, n, items, start, first, end, ts, pc, x, JRun(CaseTail(n, items, next, end), y))
  {
    hide CaptRun, CaptFn, RunFrom, JRun, CaseTail, Reaches, StateNames;
    var g, f := Machine(start, first, end), FlowOf(ctx);
    TailRuns(n, items, next, end, y);
    KeptTwice(n, m, ts.vars, x.vars, y.vars, {});
    if next <= end {
      var z := y.(vars := y.vars[GotoState(n) := Str(items[next].lab.value)]);
      NamesLanding(items, start, first, end, n, next, z.vars);
      assert ClusterRel(items, start, first, end, n, ts, At(Land(items, g, next), y.user), z);
    } else {
      CaptReaches(items, g, f, At(pc, x.user), At(next, y.user));
      CaptOutside(items, g, f, next, y.user);
    }
  }

  /** A case that is left on its way. */
  lemma {:induction false} CaseLeaves(ctx: Ctx, env: Env, items: seq<Item>, start: nat, first: nat, end: nat, n: nat,
                                      m: nat, pc: nat, size: nat, src: Outcome, ts: JState, x: JState, r: JOutcome)
    requires start <= first <= end < |items| && Ready(ctx, env, LabelsIn(items), n) && n < m
    requires StateOf(items, start, first, pc) == pc
    requires r.JDone? && r.comp != JNormal && Follows(StateCtx(ctx, items, first, end, n), m, x, src, Ends(), r)
    requires Lands(r, {}, Inside(env, GotoLoop(n)))
    requires CaptCarries(items, Machine(start, first, end), FlowOf(ctx), pc, size, x.user, src)
    requires ClusterRel(items, start, first, end, n, ts, At(pc, x.user), x)
    ensures CaseOk(ctx, n, items, start, first, end, ts, pc, x, r)
  {
    hide LabelsIn, BreakLeaves, ContinueLeaves, Ready, RunFrom, CaptRun, CaptFn, StateOf, Reaches, Emitted;
    ReadyDistinct(ctx, env, LabelsIn(items), n);
    var g, f, y := Machine(start, first, end), FlowOf(ctx), r.ts;
    var inner := StateCtx(ctx, items, first, end, n);
    ClusterCompletion(ctx, env, items, first, end, n, src.comp, r.comp, y);
    KeptTwice(n, m, ts.vars, x.vars, y.vars, Touched(inner, src.comp));
    if src.comp.Jumped? && src.comp.lab in LabelsBetween(items, first, end) {
      var q :| first <= q < |items| && q <= end && items[q].lab == Some(src.comp.lab);
      PositionOf(items, q, src.comp.lab);
      assert Kept(n, ts.vars, y.vars, {});
      NamesLanding(items, start, first, end, n, q, y.vars);
      assert ClusterRel(items, start, first, end, n, ts, At(Land(items, g, q), y.user), y);
    } else if src.comp == Broke && !BreakLeaves(f) {
      CaptReaches(items, g, f, At(pc, x.user), At(end + 1, y.user));
      CaptOutside(items, g, f, end + 1, y.user);
    } else if src.comp == Continued && !ContinueLeaves(f) {
      assert Below(GotoState(n), m);
      assert ClusterRel(items, start, first, end, n, ts, At(pc, y.user), y);
    }
  }

  lemma {:induction false} FirstCaseShift(v: string, values: seq<string>, x: Val, i: nat)
    requires i <= |values|
    ensures FirstCase([v] + values, x, i + 1) == 1 + FirstCase(values, x, i)
    decreases |values| - i
  {
    if i < |values| { FirstCaseShift(v, values, x, i + 1); }
  }

  /** The case the dispatch selects in state `x` follows the list from `pc`. */
  ghost predicate Dispatches(ctx: Ctx, n: nat, items: seq<Item>, start: nat, first: nat, end: nat,
                             values: seq<string>, cases: seq<JCase>, ts: JState, pc: nat, x: JState)
  {
    var k := FirstCase(values, Lookup(x.vars, GotoState(n)), 0);
    k < |cases| && CaseOk(ctx, n, items, start, first, end, ts, pc, x, JRun(cases[k].body, x))
  }

  /** One turn of `while (true) { switch (state) { … } break }`. */
  lemma {:induction false} DispatchStep(ctx: Ctx, n: nat, items: seq<Item>, start: nat, first: nat, end: nat,
                     values: seq<string>, cases: seq<JCase>, loop: JS, ts: JState, pc: nat, x: JState)
    requires loop == JLoop(NOTHING, FOREVER, NOTHING, [JSwitch(ByVar(GotoState(n), values), cases), JBreak])
    requires Dispatches(ctx, n, items, start, first, end, values, cases, ts, pc, x)
    ensures match JLoopStep(loop, {GotoLoop(n)}, x)
      case Next(y) =>
        exists b: Counter ::
          Reaches(CaptFn(items, Machine(start, first, end), FlowOf(ctx)), At(pc, x.user), b) &&
          ClusterRel(items, start, first, end, n, ts, b, y)
      case Stop(q) =>
        Leaves(ctx, n, items, end, GotoLoop(n), ts, CaptRun(items, Machine(start, first, end), FlowOf(ctx), pc, x.user),
               q)
  {
    hide CaptRun, CaptFn, RunFrom, Reaches, ClusterRel;
    var switch := JSwitch(ByVar(GotoState(n), values), cases);
    var k := FirstCase(values, Lookup(x.vars, GotoState(n)), 0);
    var r := JRun(cases[k].body, x);
    assert PickCase(switch.sel, x) == (k, x);
    var e := if r.JDone? && r.comp == JBroke then JDone(JNormal, r.ts) else r;
    assert JExec(switch, {}, x) == JRunCases(cases, k, x) == e;
    assert [switch, JBreak][1..] == [JBreak];
    if e.JDone? { RunOne(JBreak, e.ts); }
    assert JRun([switch, JBreak], x) == if e.JDone? && e.comp == JNormal then JDone(JBroke, e.ts) else e;
    assert x.(user := x.user) == x;
  }

  lemma {:induction false} ClusterLoopFollows(ctx: Ctx, n: nat, items: seq<Item>, start: nat, first: nat, end: nat,
                           values: seq<string>, cases: seq<JCase>, ts: JState)
    requires values != []
    requires StateNames(items, start, first, end, n, start, map[GotoState(n) := Str(values[0])])
    requires forall at: Counter, x: JState ::
      ClusterRel(items, start, first, end, n, ts, at, x) ==>
        Dispatches(ctx, n, items, start, first, end, values, cases, ts, at.pc, x)
    ensures Follows(ctx, n, ts, CaptRun(items, Machine(start, first, end), FlowOf(ctx), start, ts.user),
                    Onward(items, end + 1),
                    JRun(ClusterCode(n, values, cases), ts))
  {
    var code := ClusterCode(n, values, cases);
    var loop := code[1].stmt;
    var t1 := ts.(vars := ts.vars[GotoState(n) := Str(values[0])]);
    var g, f := Machine(start, first, end), FlowOf(ctx);
    var slow, fast := CaptFn(items, g, f), JLoopStepFn(loop, {GotoLoop(n)});
    var rel := (at: Counter, x: JState) => ClusterRel(items, start, first, end, n, ts, at, x);
    var agree := (o: Outcome, q: JOutcome) => Leaves(ctx, n, items, end, GotoLoop(n), ts, o, q);
    forall at, x | rel(at, x) ensures Tracks(slow, fast, Diverge, rel, agree, at, x) {
      DispatchStep(ctx, n, items, start, first, end, values, cases, loop, ts, at.pc, x);
      assert fast(x) == JLoopStep(loop, {GotoLoop(n)}, x);
      assert at == At(at.pc, x.user);
      if fast(x).Next? {
        var b :| Reaches(slow, At(at.pc, x.user), b) && ClusterRel(items, start, first, end, n, ts, b, fast(x).s);
        assert rel(b, fast(x).s);
      }
    }
    assert rel(At(start, ts.user), t1);
    LoopSimulation(slow, fast, Diverge, JDiverge, rel, agree, At(start, ts.user), t1);
    assert t1.(user := NOTHING(t1.user)) == t1;
    var q := JExec(loop, {GotoLoop(n)}, t1);
    assert Leaves(ctx, n, items, end, GotoLoop(n), ts, CaptRun(items, g, f, start, ts.user), q);
    RunOne(code[1], t1);
    assert code[1..] == [code[1]];
    assert {} + {GotoLoop(n)} == {GotoLoop(n)};
    assert JRun(code, ts) == JExec(code[1], {}, t1);
  }

  // ----- labelled loops -----

  /** The pass ends with another pass. */
  ghost predicate GoesBack(l: Label, r: JOutcome)
  {
    r.JDone? && (r.comp == JContinuedTo(Src(l)) || r.comp == JContinued)
  }

  /** One pass over the body of a loop for the label at `p`, entered at `pc`: it goes back to the
      label, leaves the loop at its end, or leaves the list. */
  ghost predicate PassOk(ctx: Ctx, n: nat, items: seq<Item>, p: nat, end: nat, l: Label, pc: nat, x: JState,
                         r: JOutcome)
  {
    var g, f := Labelled(p, end), FlowOf(ctx);
    if GoesBack(l, r) then
      Reaches(CaptFn(items, g, f), At(pc, x.user), At(p, r.ts.user)) && Kept(n, x.vars, r.ts.vars, {})
    else if r.JDone? && (r.comp == JBroke || r.comp == JBrokeTo(Src(l))) then
      CaptRun(items, g, f, pc, x.user) == RunFrom(items, end + 1, r.ts.user) && Kept(n, x.vars, r.ts.vars, {})
    else
      (r.JDone? ==> r.comp != JNormal) &&
      Leaves(ctx, n, items, end, Src(l), x, CaptRun(items, g, f, pc, x.user), r)
  }

  lemma {:induction false} LoopCompletion(ctx: Ctx, env: Env, items: seq<Item>, p: nat, l: Label, n: nat, c: Comp,
                                          j: JComp, ts: JState)
    requires p < |items| && items[p].lab == Some(l) && BackwardLabelAt(items, p)
    requires Ready(ctx, env, LabelsIn(items), n)
    requires c != Normal && Emitted(BackwardCtx(ctx, items), c, j, ts.vars)
    requires Lands(JDone(j, ts), {}, Inside(env, Src(l)))
    ensures Touched(BackwardCtx(ctx, items), c) == Touched(ctx, c)
    ensures if c == Jumped(l) || c == ContinuedTo(l) then j == JContinuedTo(Src(l)) && Touched(ctx, c) == {}
      else if c == BrokeTo(l) then j == JBrokeTo(Src(l)) && Touched(ctx, c) == {}
      else if c == Broke && !BreakLeaves(FlowOf(ctx)) then j == JBroke && Touched(ctx, c) == {}
      else if c == Continued && !ContinueLeaves(FlowOf(ctx)) then j == JContinued && Touched(ctx, c) == {}
      else
        && Emitted(ctx, c, j, ts.vars) && !(c.Jumped? && HasLabel(items, c.lab))
        && j != JNormal && j != JBroke && j != JContinued && j != JContinuedTo(Src(l)) && j != JBrokeTo(Src(l))
  {
    hide LabelsIn, BackwardEnd;
    LabelOnce(items, p, p, l);
    match c
    case Broke =>
    case Continued =>
    case BrokeTo(_) =>
    case ContinuedTo(_) =>
    case Returned(_) =>
    case Jumped(k) =>
      if HasLabel(items, k) { LabelOnce(items, IndexOf(items, k), IndexOf(items, k), k); }
      if k in BackwardLabels(items) {
        var q :| 0 <= q < |items| && BackwardLabelAt(items, q) && items[q].lab.value == k;
        assert HasLabel(items, k);
      }
  }

  /** How a completion of a piece inside the loop may look. */
  ghost predicate Inner(l: Label, r: Outcome)
  {
    r.Done? ==> r.comp != BrokeTo(l) && r.comp != ContinuedTo(l)
  }

  /** A piece of the loop that runs from `pc` up to the loop's end. */
  lemma {:induction false} PieceEndsPass(ctx: Ctx, env: Env, items: seq<Item>, p: nat, end: nat, l: Label, n: nat,
                                         m: nat, pc: nat, size: nat, src: Outcome, r: JOutcome, x: JState)
    requires p < |items| && items[p].lab == Some(l) && BackwardLabelAt(items, p) && pc + size == end + 1
    requires Ready(ctx, env, LabelsIn(items), n) && n <= m
    requires Follows(BackwardCtx(ctx, items), m, x, src, Ends(), r)
    requires CaptCarries(items, Labelled(p, end), FlowOf(ctx), pc, size, x.user, src)
    requires Lands(r, {}, Inside(env, Src(l))) && Inner(l, src)
    ensures if r.JDone? && r.comp == JNormal then PassOk(ctx, n, items, p, end, l, pc, x, JDone(JBroke, r.ts))
            else PassOk(ctx, n, items, p, end, l, pc, x, r)
  {
    hide CaptRun, CaptFn, RunFrom, Reaches, Ready, LabelsIn, BackwardLabelAt, BreakLeaves, ContinueLeaves, Emitted;
    var g, f := Labelled(p, end), FlowOf(ctx);
    if r.JDone? {
      if r.comp == JNormal {
        KeptTwice(n, m, x.vars, x.vars, r.ts.vars, {});
        if size > 0 { CaptReaches(items, g, f, At(pc, x.user), At(end + 1, r.ts.user)); }
        CaptOutside(items, g, f, end + 1, r.ts.user);
      } else {
        ReadyDistinct(ctx, env, LabelsIn(items), n);
        LoopCompletion(ctx, env, items, p, l, n, src.comp, r.comp, r.ts);
        KeptTwice(n, m, x.vars, x.vars, r.ts.vars, Touched(ctx, src.comp));
        if src.comp == Jumped(l) {
          PositionOf(items, p, l);
        } else if src.comp == Broke && !BreakLeaves(f) {
          CaptReaches(items, g, f, At(pc, x.user), At(end + 1, r.ts.user));
          CaptOutside(items, g, f, end + 1, r.ts.user);
        }
      }
    }
  }

  /** The body behind the labelled statement, and the final `break`. */
  lemma {:induction false} RestFollows(ctx: Ctx, env: Env, items: seq<Item>, p: nat, end: nat, l: Label, n: nat, m: nat,
                    a: nat, code: seq<JS>, x: JState)
    requires p < a <= end + 1 <= |items| && items[p].lab == Some(l) && BackwardLabelAt(items, p)
    requires Ready(ctx, env, LabelsIn(items), n) && SaneIn(items, ctx.hasResult) && n <= m
    requires BodyFollows(BackwardCtx(ctx, items), m, items[a..end + 1], code) && LegalSeq(code, Inside(env, Src(l)))
    ensures PassOk(ctx, n, items, p, end, l, a, x, JRun(code + [JBreak], x))
  {
    hide SaneIn, Ready, LabelsIn, LegalSeq, BackwardLabelAt, Leaves, Follows, PassOk, CaptCarries;
    ReadyDistinct(ctx, env, LabelsIn(items), n);
    var seg := items[a..end + 1];
    var src, r := RunFrom(seg, 0, x.user), JRun(code, x);
    assert Follows(BackwardCtx(ctx, items), m, x, RunFrom(seg, 0, x.user), Ends(), r);
    RestSource(items, FlowOf(ctx), p, end, a, ctx.hasResult, l, x.user);
    LegalSeqLands(code, Inside(env, Src(l)), x);
    PieceEndsPass(ctx, env, items, p, end, l, n, m, a, end + 1 - a, src, r, x);
    BreakBehind(code, x);
  }

  lemma {:induction false} BreakBehind(code: seq<JS>, x: JState)
    ensures var r := JRun(code, x);
      JRun(code + [JBreak], x) == if r.JDone? && r.comp == JNormal then JDone(JBroke, r.ts) else r
  {
    JRunConcat(code, [JBreak], x);
    var r := JRun(code, x);
    if r.JDone? { RunOne(JBreak, r.ts); }
  }

  lemma {:induction false} RestSource(items: seq<Item>, f: Flow, p: nat, end: nat, a: nat, hasResult: bool, l: Label,
                                      st: Store)
    requires SaneIn(items, hasResult) && p < a <= end + 1 <= |items| && Distinct(LabelsIn(items))
    requires items[p].lab == Some(l)
    ensures var src := RunFrom(items[a..end + 1], 0, st);
      CaptCarries(items, Labelled(p, end), f, a, end + 1 - a, st, src) && Inner(l, src)
  {
    hide RunsAs, SaneIn, CaptCarries, RunFrom;
    var seg := items[a..end + 1];
    SliceRunsAs(items, a, end + 1);
    CaptPiece(items, Labelled(p, end), f, a, seg, st);
    SliceLabels(items, a, end + 1);
    PieceInner(items, p, a, seg, hasResult, l, st);
  }

  /** A piece that does not hold the labelled statement does not branch to the label. */
  lemma {:induction false} PieceInner(items: seq<Item>, p: nat, a: nat, seg: seq<Item>, hasResult: bool, l: Label,
                                      st: Store)
    requires SaneIn(items, hasResult) && Part(items, a, seg) && p < a && p < |items| && items[p].lab == Some(l)
    ensures Inner(l, RunFrom(seg, 0, st))
  {
    SanePart(items, a, seg, hasResult);
    RunExits(seg, 0, st, hasResult);
    forall k | 0 <= k < |seg| ensures !ItemBranchesTo(seg[k], l) { SaneAt(items, a + k, hasResult); }
  }

  /** The labelled statement first, then the rest. */
  lemma {:induction false} PassFollows(ctx: Ctx, env: Env, items: seq<Item>, p: nat, end: nat, l: Label, n: nat, m: nat,
                    first: seq<JS>, code: seq<JS>, x: JState)
    requires p <= end < |items| && items[p].lab == Some(l) && BackwardLabelAt(items, p)
    requires Ready(ctx, env, LabelsIn(items), n) && SaneIn(items, ctx.hasResult) && n <= m
    requires Follows(BackwardCtx(ctx, items), n, x, Exec(items[p].stmt, None, x.user), Ends(), JRun(first, x))
    requires LegalSeq(first, Inside(env, Src(l)))
    requires BodyFollows(BackwardCtx(ctx, items), m, items[p + 1..end + 1], code) && LegalSeq(code, Inside(env, Src(l)))
    ensures PassOk(ctx, n, items, p, end, l, p, x, JRun(first + code + [JBreak], x))
  {
    hide SaneIn, Ready, LabelsIn, LegalSeq, BodyFollows, BackwardLabelAt, CaptRun, RunFrom, PassOk;
    ReadyDistinct(ctx, env, LabelsIn(items), n);
    var r := JRun(first, x);
    var src := Exec(items[p].stmt, None, x.user);
    assert first + code + [JBreak] == first + (code + [JBreak]);
    JRunConcat(first, code + [JBreak], x);
    LegalSeqLands(first, Inside(env, Src(l)), x);
    if r.JDone? && r.comp == JNormal {
      var y, g, f := r.ts, Labelled(p, end), FlowOf(ctx);
      RestFollows(ctx, env, items, p, end, l, n, m, p + 1, code, y);
      assert CaptStep(items, g, f, At(p, x.user)) == Next(At(p + 1, y.user));
      CaptOne(items, g, f, At(p, x.user), At(p + 1, y.user));
      PassLonger(ctx, n, items, p, end, l, x, y, JRun(code + [JBreak], y));
    } else {
      FirstEndsPass(ctx, env, items, p, end, l, n, src, r, x);
    }
  }

  /** A pass that the labelled statement ends. */
  lemma {:induction false} FirstEndsPass(ctx: Ctx, env: Env, items: seq<Item>, p: nat, end: nat, l: Label, n: nat,
                                         src: Outcome, r: JOutcome, x: JState)
    requires p <= end < |items| && items[p].lab == Some(l) && BackwardLabelAt(items, p)
    requires Ready(ctx, env, LabelsIn(items), n) && src == Exec(items[p].stmt, None, x.user)
    requires Follows(BackwardCtx(ctx, items), n, x, src, Ends(), r) && !(r.JDone? && r.comp == JNormal)
    requires Lands(r, {}, Inside(env, Src(l)))
    ensures PassOk(ctx, n, items, p, end, l, p, x, r)
  {
    hide Ready, LabelsIn, BackwardLabelAt, CaptRun, RunFrom, BreakLeaves, ContinueLeaves, Emitted, CaptFn, Reaches;
    ReadyDistinct(ctx, env, LabelsIn(items), n);
    var g, f := Labelled(p, end), FlowOf(ctx);
    CaptUnfold(items, g, f, p, x.user);
    if r.JDone? {
      var y := r.ts;
      LoopCompletion(ctx, env, items, p, l, n, src.comp, r.comp, y);
      if src.comp == Jumped(l) {
        PositionOf(items, p, l);
        CaptOne(items, g, f, At(p, x.user), At(p, y.user));
      } else if src.comp == ContinuedTo(l) {
        CaptOne(items, g, f, At(p, x.user), At(p, y.user));
      } else if (src.comp == Broke && !BreakLeaves(f)) || src.comp == BrokeTo(l) {
        CaptOutside(items, g, f, end + 1, y.user);
      } else if src.comp == Continued && !ContinueLeaves(f) {
        CaptOne(items, g, f, At(p, x.user), At(p, y.user));
      }
    }
  }

  lemma {:induction false} PassLonger(ctx: Ctx, n: nat, items: seq<Item>, p: nat, end: nat, l: Label, x: JState,
                                      y: JState, r: JOutcome)
    requires Reaches(CaptFn(items, Labelled(p, end), FlowOf(ctx)), At(p, x.user), At(p + 1, y.user))
    requires Kept(n, x.vars, y.vars, {})
    requires PassOk(ctx, n, items, p, end, l, p + 1, y, r)
    ensures PassOk(ctx, n, items, p, end, l, p, x, r)
  {
    hide CaptRun, CaptFn, RunFrom;
    var g, f := Labelled(p, end), FlowOf(ctx);
    CaptReaches(items, g, f, At(p, x.user), At(p + 1, y.user));
    if r.JDone? {
      var z := r.ts;
      if GoesBack(l, r) {
        CaptTwice(items, g, f, At(p, x.user), At(p + 1, y.user), At(p, z.user));
        KeptTwice(n, n, x.vars, y.vars, z.vars, {});
      } else if r.comp == JBroke || r.comp == JBrokeTo(Src(l)) {
        KeptTwice(n, n, x.vars, y.vars, z.vars, {});
      } else {
        KeptTwice(n, n, x.vars, y.vars, z.vars, Touched(ctx, CaptRun(items, g, f, p, x.user).comp));
      }
    }
  }

  /** Where a generated loop may be entered; `vars` is what it keeps of the state. */
  ghost predicate LoopRel(n: nat, ts: JState, entry: (nat, map<Name, Val>) -> bool, at: Counter, x: JState)
  {
    at.st == x.user && entry(at.pc, x.vars) && Kept(n, ts.vars, x.vars, {})
  }

  /** A generated loop whose passes follow the list follows the list, with captured branches. */
  lemma {:induction false} LoopFollows(ctx: Ctx, n: nat, items: seq<Item>, p: nat, end: nat, l: Label, start: nat,
                    body: seq<JS>, entry: (nat, map<Name, Val>) -> bool, ts: JState)
    requires entry(start, ts.vars)
    requires forall at: Counter, x: JState ::
      LoopRel(n, ts, entry, at, x) ==> PassOk(ctx, n, items, p, end, l, at.pc, x, JRun(body, x))
    requires forall at: Counter, x: JState ::
      LoopRel(n, ts, entry, at, x) ==> (GoesBack(l, JRun(body, x)) ==> entry(p, JRun(body, x).ts.vars))
    ensures Follows(ctx, n, ts, CaptRun(items, Labelled(p, end), FlowOf(ctx), start, ts.user), Onward(items, end + 1),
                    JExec(JLabeled(Src(l), JLoop(NOTHING, FOREVER, NOTHING, body)), {}, ts))
  {
    var loop, own := JLoop(NOTHING, FOREVER, NOTHING, body), Src(l);
    var g, f := Labelled(p, end), FlowOf(ctx);
    var slow, fast := CaptFn(items, g, f), JLoopStepFn(loop, {own});
    var rel := (at: Counter, x: JState) => LoopRel(n, ts, entry, at, x);
    var agree := (o: Outcome, q: JOutcome) => Leaves(ctx, n, items, end, own, ts, o, q);
    forall at, x | rel(at, x) ensures Tracks(slow, fast, Diverge, rel, agree, at, x) {
      var r := JRun(body, x);
      assert PassOk(ctx, n, items, p, end, l, at.pc, x, r);
      assert at == At(at.pc, x.user) && x.(user := x.user) == x;
      assert fast(x) == JLoopStep(loop, {own}, x);
      if r.JDone? {
        if GoesBack(l, r) {
          KeptTwice(n, n, ts.vars, x.vars, r.ts.vars, {});
          assert rel(At(p, r.ts.user), r.ts);
          assert fast(x) == Next(r.ts);
        } else if r.comp == JBroke || r.comp == JBrokeTo(own) {
          KeptTwice(n, n, ts.vars, x.vars, r.ts.vars, {});
        } else {
          KeptTwice(n, n, ts.vars, x.vars, r.ts.vars, Touched(ctx, CaptRun(items, g, f, at.pc, x.user).comp));
        }
      }
    }
    assert rel(At(start, ts.user), ts);
    LoopSimulation(slow, fast, Diverge, JDiverge, rel, agree, At(start, ts.user), ts);
    assert ts.(user := NOTHING(ts.user)) == ts;
    LeavesFollows(ctx, n, items, end, own, ts, CaptRun(items, g, f, start, ts.user), loop);
  }

  // ----- nested labelled blocks -----

  /** Code that runs the list from `from` on: it ends normally at `to`, breaks out to a label of
      the group, or leaves the list. */
  ghost predicate GroupOk(ctx: Ctx, n: nat, items: seq<Item>, group: set<Label>, from: nat, to: nat, x: JState,
                          r: JOutcome)
  {
    var src := RunFrom(items, from, x.user);
    match r
    case JDiverge => src == Diverge
    case JDone(j, y) =>
      if j == JNormal then src == RunFrom(items, to, y.user) && Kept(n, x.vars, y.vars, {})
      else if j.JBrokeTo? && j.l.Src? && j.l.lab in group then
        HasLabel(items, j.l.lab) && src == RunFrom(items, IndexOf(items, j.l.lab), y.user) &&
        Kept(n, x.vars, y.vars, {})
      else
        src.Done? && src.st == y.user && src.comp != Normal && Emitted(ctx, src.comp, j, y.vars) &&
        Kept(n, x.vars, y.vars, Touched(ctx, src.comp))
  }

  lemma {:induction false} GroupCompletion(ctx: Ctx, env: Env, items: seq<Item>, start: nat, last: nat, n: nat, c: Comp,
                                           j: JComp, ts: JState)
    requires Ready(ctx, env, LabelsIn(items), n)
    requires c != Normal && Emitted(GroupCtx(ctx, items, start, last), c, j, ts.vars)
    requires j.JContinuedTo? ==> j.l in env.continues
    requires c.BrokeTo? ==> c.lab !in GroupLabels(items, start, last)
    ensures Touched(GroupCtx(ctx, items, start, last), c) == Touched(ctx, c) && j != JNormal
    ensures if c.Jumped? && c.lab in GroupLabels(items, start, last) then
        j == JBrokeTo(Src(c.lab)) && HasLabel(items, c.lab) && Touched(ctx, c) == {}
      else
        Emitted(ctx, c, j, ts.vars) && !(c.Jumped? && HasLabel(items, c.lab)) &&
        !(j.JBrokeTo? && j.l.Src? && j.l.lab in GroupLabels(items, start, last))
  {
    var group := GroupLabels(items, start, last);
    forall l | l in group
      ensures HasLabel(items, l) && l !in ctx.forwardGotos && (ctx.state.Some? ==> l !in ctx.state.value.labels)
    {
      var q :| 0 <= q < |items| && InGroup(items, start, last, q) && items[q].lab.value == l;
      assert items[q].lab == Some(l);
      LabelOnce(items, q, q, l);
    }
    match c
    case Broke =>
    case Continued =>
    case BrokeTo(_) =>
    case ContinuedTo(_) =>
    case Returned(_) =>
    case Jumped(l) =>
      if HasLabel(items, l) { LabelOnce(items, IndexOf(items, l), IndexOf(items, l), l); }
  }

  /** A piece of the list inside the blocks. */
  lemma {:induction false} GroupPiece(ctx: Ctx, env: Env, items: seq<Item>, start: nat, last: nat, n: nat, m: nat,
                   from: nat, size: nat, src: Outcome, r: JOutcome, x: JState)
    requires Ready(ctx, env, LabelsIn(items), n) && n <= m
    requires Follows(GroupCtx(ctx, items, start, last), m, x, src, Ends(), r)
    requires Carries(items, from, size, x.user, src)
    requires r.JDone? && r.comp.JContinuedTo? ==> r.comp.l in env.continues
    requires src.Done? && src.comp.BrokeTo? ==> src.comp.lab !in GroupLabels(items, start, last)
    ensures GroupOk(ctx, n, items, GroupLabels(items, start, last), from, from + size, x, r)
  {
    if r.JDone? {
      if r.comp == JNormal {
        KeptTwice(n, m, x.vars, x.vars, r.ts.vars, {});
      } else {
        GroupCompletion(ctx, env, items, start, last, n, src.comp, r.comp, r.ts);
        KeptTwice(n, m, x.vars, x.vars, r.ts.vars, Touched(ctx, src.comp));
        if src.comp.Jumped? && src.comp.lab in GroupLabels(items, start, last) {
          RunReaches(items, At(from, x.user), At(IndexOf(items, src.comp.lab), r.ts.user));
        }
      }
    }
  }

  lemma {:induction false} GroupThen(ctx: Ctx, n: nat, items: seq<Item>, group: set<Label>, from: nat, mid: nat,
                                     to: nat, x: JState, a: seq<JS>, b: seq<JS>)
    requires GroupOk(ctx, n, items, group, from, mid, x, JRun(a, x))
    requires var r := JRun(a, x);
      r.JDone? && r.comp == JNormal ==> GroupOk(ctx, n, items, group, mid, to, r.ts, JRun(b, r.ts))
    ensures GroupOk(ctx, n, items, group, from, to, x, JRun(a + b, x))
  {
    JRunConcat(a, b, x);
    var r := JRun(a, x);
    if r.JDone? && r.comp == JNormal {
      var q := JRun(b, r.ts);
      if q.JDone? {
        if Kept(n, r.ts.vars, q.ts.vars, {}) {
          KeptTwice(n, n, x.vars, r.ts.vars, q.ts.vars, {});
        } else {
          KeptTwice(n, n, x.vars, r.ts.vars, q.ts.vars, Touched(ctx, RunFrom(items, from, x.user).comp));
        }
      }
    }
  }

  /** The block of the label at `p` ends, normally or by a break to it, where that label stands. */
  lemma {:induction false} GroupBlock(ctx: Ctx, n: nat, items: seq<Item>, group: set<Label>, from: nat, p: nat,
                                      l: Label, x: JState, before: seq<JS>)
    requires Distinct(LabelsIn(items)) && p < |items| && items[p].lab == Some(l) && l in group
    requires GroupOk(ctx, n, items, group, from, p, x, JRun(before, x))
    ensures GroupOk(ctx, n, items, group, from, p, x, JRun([JLabeled(Src(l), JBlock(before))], x))
  {
    PositionOf(items, p, l);
    RunOne(JLabeled(Src(l), JBlock(before)), x);
  }

  /** A piece of the list at which lowering leaves the list level: one statement. */
  lemma {:induction false} ItemStep(ctx: Ctx, env: Env, items: seq<Item>, idx: nat, n: nat, m: nat, src: Outcome,
                                    code: seq<JS>, x: JState)
    requires idx < |items| && Ready(ctx, env, LabelsIn(items), n) && n <= m
    requires src == ExecItem(items[idx], x.user)
    requires Follows(ctx, m, x, src, Ends(), JRun(code, x))
    requires LegalSeq(code, env)
    ensures Follows(ctx, n, x, RunFrom(items, idx, x.user), Onward(items, idx + 1), JRun(code, x))
  {
    var r := JRun(code, x);
    RunUnfold(items, idx, x.user);
    LegalSeqLands(code, env, x);
    if r.JDone? {
      if r.comp == JNormal {
        KeptTwice(n, m, x.vars, x.vars, r.ts.vars, {});
      } else {
        NoOwnJump(ctx, env, items, n, src.comp, r.comp, r.ts);
        KeptTwice(n, m, x.vars, x.vars, r.ts.vars, Touched(ctx, src.comp));
      }
    }
  }

  function GroupEnv(env: Env, items: seq<Item>, start: nat, last: nat, p: nat): Env
  {
    env.(breaks := env.breaks + set k | p <= k < |items| && InGroup(items, start, last, k) :: Src(items[k].lab.value))
  }

  /** What a legal nest of blocks says about the code inside the block of the label at `p`. */
  lemma {:induction false} NestLegal(ctx: Ctx, env: Env, items: seq<Item>, start: nat, last: nat, p: nat,
                                     before: seq<JS>, n: nat)
    requires p <= last < |items| && InGroup(items, start, last, p) && InGroup(items, start, last, last)
    requires GroupClosed(items, start, last)
    requires LegalSeq(NestBlocks(ctx, items, start, last, p, before, n).code, env)
    ensures LegalSeq(before, GroupEnv(env, items, start, last, p))
    decreases last - p
  {
    hide LowerFrom, Legal, Size;
    var l := items[p].lab.value;
    var block := JLabeled(Src(l), JBlock(before));
    if p == last {
      LegalOne(block, env);
      BlockLegal(l, before, env);
      assert GroupEnv(env, items, start, last, p).breaks == env.breaks + {Src(l)};
    } else {
      var q := NextInGroup(items, start, last, p + 1);
      SegmentSize(items, p, q);
      var a := LowerFrom(ctx, Segment(items, p, q), 0, n);
      NestLegal(ctx, env, items, start, last, q, [block] + a.code, a.next);
      var inner := GroupEnv(env, items, start, last, q);
      LegalConcat([block], a.code, inner);
      LegalOne(block, inner);
      BlockLegal(l, before, inner);
      NextEnv(env, items, start, last, p, q);
    }
  }

  lemma {:induction false} BlockLegal(l: Label, before: seq<JS>, env: Env)
    requires Legal(JLabeled(Src(l), JBlock(before)), {}, env)
    ensures LegalSeq(before, env.(breaks := env.breaks + {Src(l)}))
  {
    assert Legal(JBlock(before), {} + {Src(l)}, env.(breaks := env.breaks + {Src(l)}));
  }

  lemma {:induction false} NextEnv(env: Env, items: seq<Item>, start: nat, last: nat, p: nat, q: nat)
    requires p < q <= |items| && InGroup(items, start, last, p)
    requires forall k :: p < k < q ==> !InGroup(items, start, last, k)
    ensures var inner := GroupEnv(env, items, start, last, q);
      GroupEnv(env, items, start, last, p) == inner.(breaks := inner.breaks + {Src(items[p].lab.value)})
  {
    var inner := GroupEnv(env, items, start, last, q);
    assert GroupEnv(env, items, start, last, p).breaks == inner.breaks + {Src(items[p].lab.value)};
  }
}
