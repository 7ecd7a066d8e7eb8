/** For loops, switches and range-over-func loops follow their source when their bodies do. */
module Constructs {
  import opened Iteration
  import opened GoSource
  import opened JsTarget
  import opened GotoAnalysis
  import opened Lowering
  import opened SourceChecks
  import opened Simulation

  // ----- for loops -----

  function OwnNames(own: Option<Label>): set<Name>
  {
    if own.Some? then {Src(own.value)} else {}
  }

  ghost predicate ForRel(n: nat, ts: JState, st: Store, x: JState)
  {
    st == x.user && Kept(n, ts.vars, x.vars, {})
  }

  ghost predicate ForAgree(ctx: Ctx, n: nat, named: bool, ts: JState, o: Outcome, q: JOutcome)
  {
    match q
    case JDiverge => o == Diverge
    case JDone(j, x) =>
      o.Done? && o.st == x.user &&
      if j == JNormal || (named && j == JBrokeTo(LoopName(n))) then o.comp == Normal && Kept(n, ts.vars, x.vars, {})
      else o.comp != Normal && Emitted(ctx, o.comp, j, x.vars) && Kept(n, ts.vars, x.vars, Touched(ctx, o.comp))
  }

  /** The body's completion ends the loop or goes on in both worlds, and means the same outside. */
  lemma {:induction false} ForCompletion(ctx: Ctx, n: nat, own: Option<Label>, named: bool, labels: set<Name>, c: Comp,
                                         j: JComp, vars: map<Name, Val>)
    requires labels == OwnNames(own) + (if named then {LoopName(n)} else {})
    requires ctx.loopLabel.Some? ==> ctx.loopLabel.value < n
    requires c != Normal && Emitted(ForCtx(ctx, named, n), c, j, vars)
    requires c.Jumped? ==> own != Some(c.lab)
    ensures Touched(ctx, c) == Touched(ForCtx(ctx, named, n), c)
    ensures j != JNormal && JResumes(j, labels) == Resumes(c, own)
    ensures c == Broke <==> j == JBroke || (named && j == JBrokeTo(LoopName(n)))
    ensures c != Broke && !Resumes(c, own) ==> Emitted(ctx, c, j, vars)
    ensures Touched(ctx, Broke) == {} && (Resumes(c, own) ==> Touched(ctx, c) == {})
  {
    match c
    case Broke =>
    case Continued =>
    case BrokeTo(_) =>
    case ContinuedTo(_) =>
    case Jumped(_) =>
    case Returned(_) =>
  }

  lemma {:induction false} ForStepTracks(ctx: Ctx, n: nat, s: Stmt, own: Option<Label>, named: bool, loop: JS,
                                         labels: set<Name>, ts: JState, x: JState)
    requires s.For? && Sane(s, ctx.hasResult) && (own.Some? ==> own.value !in GotosOf(s))
    requires loop.JLoop? && loop.cond == s.cond && loop.post == s.post
    requires labels == OwnNames(own) + (if named then {LoopName(n)} else {})
    requires ctx.loopLabel.Some? ==> ctx.loopLabel.value < n
    requires BodyFollows(ForCtx(ctx, named, n), n + 1, s.body, loop.body)
    requires Kept(n, ts.vars, x.vars, {})
    ensures match JLoopStep(loop, labels, x)
            case Next(y) => ForStep(s, own, x.user) == Next(y.user) && Kept(n, ts.vars, y.vars, {})
            case Stop(q) => ForStep(s, own, x.user).Stop? && ForAgree(ctx, n, named, ts, ForStep(s, own, x.user).r, q)
  {
    hide Emitted, RunFrom, JRun, Resumes, JResumes, Follows, Kept;
    var (b, st1) := s.cond(x.user);
    if b {
      var x1 := x.(user := st1);
      var inner := ForCtx(ctx, named, n);
      RunExits(s.body, 0, st1, ctx.hasResult);
      var src, r := RunFrom(s.body, 0, st1), JRun(loop.body, x1);
      assert Follows(inner, n + 1, x1, RunFrom(s.body, 0, x1.user), Ends(), r);
      ForBodyEnds(ctx, n, own, named, labels, ts, x1, src, r);
    } else {
      assert ForAgree(ctx, n, named, ts, Done(Normal, st1), JDone(JNormal, x.(user := st1)));
    }
  }

  /** One run of the body goes on in both worlds or ends the loop in both. */
  lemma {:induction false} ForBodyEnds(ctx: Ctx, n: nat, own: Option<Label>, named: bool, labels: set<Name>, ts: JState,
                                       x: JState, src: Outcome, r: JOutcome)
    requires labels == OwnNames(own) + (if named then {LoopName(n)} else {})
    requires ctx.loopLabel.Some? ==> ctx.loopLabel.value < n
    requires Kept(n, ts.vars, x.vars, {}) && Follows(ForCtx(ctx, named, n), n + 1, x, src, Ends(), r)
    requires src.Done? && src.comp.Jumped? ==> own != Some(src.comp.lab)
    ensures match r
            case JDiverge => src == Diverge
            case JDone(c, y) =>
              src.Done? && src.st == y.user && Resumes(src.comp, own) == JResumes(c, labels) &&
              if JResumes(c, labels) then Kept(n, ts.vars, y.vars, {})
              else ForAgree(ctx, n, named, ts, Done(if src.comp == Broke then Normal else src.comp, y.user),
                            JDone(if c == JBroke then JNormal else c, y))
  {
    hide Emitted;
    if r.JDone? && r.comp != JNormal { ForCompletion(ctx, n, own, named, labels, src.comp, r.comp, r.ts.vars); }
  }

  lemma {:induction false} ForFollows(ctx: Ctx, n: nat, s: Stmt, own: Option<Label>, named: bool, body: seq<JS>,
                                      ts: JState)
    requires s.For? && Sane(s, ctx.hasResult) && (own.Some? ==> own.value !in GotosOf(s))
    requires ctx.loopLabel.Some? ==> ctx.loopLabel.value < n
    requires BodyFollows(ForCtx(ctx, named, n), n + 1, s.body, body)
    ensures var loop := JLoop(s.init, s.cond, s.post, body);
            Follows(ctx, n, ts, Exec(s, own, ts.user), Ends(),
                    JExec(if named then JLabeled(LoopName(n), loop) else loop, OwnNames(own), ts))
  {
    hide BodyFollows, Sane, Emitted;
    var loop := JLoop(s.init, s.cond, s.post, body);
    var labels := OwnNames(own) + (if named then {LoopName(n)} else {});
    var start := ts.(user := s.init(ts.user));
    var slow, fast := ForStepFn(s, own), JLoopStepFn(loop, labels);
    var rel, agree := (st: Store, x: JState) => ForRel(n, ts, st, x),
        (o: Outcome, q: JOutcome) => ForAgree(ctx, n, named, ts, o, q);
    forall st, x | rel(st, x) ensures Tracks(slow, fast, Diverge, rel, agree, st, x) {
      ForStepTracks(ctx, n, s, own, named, loop, labels, ts, x);
      assert slow(st) == ForStep(s, own, st) && fast(x) == JLoopStep(loop, labels, x);
      LoopUnfold(slow, st, Diverge);
      if fast(x).Next? {
        assert Iter(slow, slow(st).s, 0) == Next(slow(st).s);
        assert Iter(slow, st, 1) == Next(slow(st).s);
        assert Reaches(slow, st, slow(st).s);
      }
    }
    LoopSimulation(slow, fast, Diverge, JDiverge, rel, agree, start.user, start);
    assert JExec(loop, labels, ts) == Loop(fast, start, JDiverge);
    assert !named ==> OwnNames(own) == labels;
  }

  // ----- switches -----

  lemma {:induction false} ClausesShift(clauses: seq<Clause>, i: nat, st: Store)
    requires clauses != []
    ensures RunClauses(clauses, i + 1, st) == RunClauses(clauses[1..], i, st)
    decreases |clauses| - i
  {
    if i + 1 < |clauses| {
      assert clauses[1..][i] == clauses[i + 1];
      var r := RunFrom(clauses[i + 1].body, 0, st);
      if r.Done? { ClausesShift(clauses, i + 1, r.st); }
    }
  }

  lemma {:induction false} CasesShift(cases: seq<JCase>, i: nat, ts: JState)
    requires cases != []
    ensures JRunCases(cases, i + 1, ts) == JRunCases(cases[1..], i, ts)
    decreases |cases| - i
  {
    if i + 1 < |cases| {
      assert cases[1..][i] == cases[i + 1];
      var r := JRun(cases[i + 1].body, ts);
      if r.JDone? { CasesShift(cases, i + 1, r.ts); }
    }
  }

  lemma {:induction false} ClauseCompletion(ctx: Ctx, c: Comp, j: JComp, vars: map<Name, Val>)
    requires c != Normal && Emitted(ClauseCtx(ctx), c, j, vars)
    ensures Touched(ctx, c) == Touched(ClauseCtx(ctx), c) && j != JNormal
    ensures c == Broke <==> j == JBroke
    ensures c != Broke ==> Emitted(ctx, c, j, vars)
    ensures Touched(ctx, Broke) == {}
  {
    match c
    case Broke =>
    case Continued =>
    case BrokeTo(_) =>
    case ContinuedTo(_) =>
    case Jumped(_) =>
    case Returned(_) =>
  }

  /** The first clause runs; the clauses behind it follow by fallthrough. */
  lemma {:induction false} FirstClauseFollows(ctx: Ctx, n: nat, m: nat, clauses: seq<Clause>, code: seq<JS>,
                                              rest: seq<JCase>, ts: JState)
    requires clauses != [] && n <= m
    requires Follows(ClauseCtx(ctx), n, ts, RunFrom(clauses[0].body, 0, ts.user), Ends(), JRun(code, ts))
    requires var r := JRun(code, ts);
      clauses[0].fallsThrough && r.JDone? && r.comp == JNormal ==>
        Follows(ctx, m, r.ts, RunClauses(clauses[1..], 0, r.ts.user), Ends(), JRunCases(rest, 0, r.ts))
    ensures var body := code + (if clauses[0].fallsThrough then [] else [JBreak]);
      Follows(ctx, n, ts, RunClauses(clauses, 0, ts.user), Ends(), JRunCases([JCase(body)] + rest, 0, ts))
  {
    var src, r := RunFrom(clauses[0].body, 0, ts.user), JRun(code, ts);
    var last := if clauses[0].fallsThrough then [] else [JBreak];
    var cases := [JCase(code + last)] + rest;
    JRunConcat(code, last, ts);
    assert cases[1..] == rest;
    if r.JDone? {
      if r.comp == JNormal {
        if clauses[0].fallsThrough {
          ClausesShift(clauses, 0, r.ts.user);
          CasesShift(cases, 0, r.ts);
        } else {
          RunOne(JBreak, r.ts);
        }
      } else {
        ClauseCompletion(ctx, src.comp, r.comp, r.ts.vars);
      }
    }
  }

  // ----- range-over-func loops -----

  /** The flag and the value tell how the loop is going to end. */
  ghost predicate FlagSays(n: nat, pending: Comp, vars: map<Name, Val>)
  {
    match pending
    case Normal => Lookup(vars, RangeReturn(n)) == Bool(false)
    case Returned(v) =>
      Lookup(vars, RangeReturn(n)) == Bool(true) && (v.Some? ==> Lookup(vars, RangeReturnValue(n)) == Num(v.value))
    case _ => false
  }

  ghost predicate RangeRel(n: nat, hasResult: bool, ts: JState, r: RangeState, x: JRangeState)
  {
    && r.it == x.it && r.go == x.go && r.st == x.ts.user
    && (r.go ==> r.pending == Normal)
    && (r.pending.Returned? ==> r.pending.result.Some? == hasResult)
    && FlagSays(n, r.pending, x.ts.vars)
    && Kept(n, ts.vars, x.ts.vars, {})
  }

  ghost predicate RangeAgree(n: nat, hasResult: bool, ts: JState, o: Outcome, q: JOutcome)
  {
    match q
    case JDiverge => o == Diverge
    case JDone(j, x) =>
      o.Done? && o.st == x.user && j == JNormal &&
      (o.comp.Returned? ==> o.comp.result.Some? == hasResult) &&
      FlagSays(n, o.comp, x.vars) && Kept(n, ts.vars, x.vars, {})
  }

  /** How a callback completes: `continue` and the end of the body return true, `break` and
      `return` return false, and no other branch leaves a legal callback. */
  lemma {:induction false} CallbackCompletion(ctx: Ctx, n: nat, c: Comp, j: JComp, ts: JState)
    requires c != Normal && Emitted(RangeCtx(ctx, n), c, j, ts.vars) && Lands(JDone(j, ts), {}, OUTSIDE)
    ensures c == Broke || c == Continued || c.Returned?
    ensures j == JReturned(Bool(c == Continued))
    ensures c.Returned? ==>
      FlagSays(n, c, ts.vars) && Touched(RangeCtx(ctx, n), c) == {RangeReturn(n), RangeReturnValue(n)}
    ensures !c.Returned? ==> Touched(RangeCtx(ctx, n), c) == {}
  {
    match c
    case Broke =>
    case Continued =>
    case BrokeTo(_) =>
    case ContinuedTo(_) =>
    case Jumped(_) =>
    case Returned(_) =>
  }

  lemma {:induction false} CallbackFollows(ctx: Ctx, n: nat, s: Stmt, own: Option<Label>, body: seq<JS>, x: JState)
    requires s.RangeFunc? && Sane(s, ctx.hasResult)
    requires BodyFollows(RangeCtx(ctx, n), n + 1, s.body, body) && LegalSeq(body, OUTSIDE)
    requires Lookup(x.vars, RangeReturn(n)) == Bool(false)
    ensures var src, r := RunFrom(s.body, 0, x.user), JRun(body + [JReturn(RetBool(true))], x);
      match r
      case JDiverge => src == Diverge
      case JDone(j, y) =>
        && src.Done? && src.st == y.user && Kept(n, x.vars, y.vars, {})
        && (src.comp == Normal || src.comp == Continued || src.comp == Broke || src.comp.Returned?)
        && j == JReturned(Bool(src.comp == Normal || src.comp == Continued))
        && FlagSays(n, if src.comp.Returned? then src.comp else Normal, y.vars)
        && (src.comp.Returned? ==> src.comp.result.Some? == ctx.hasResult)
  {
    var src, r := RunFrom(s.body, 0, x.user), JRun(body, x);
    assert Follows(RangeCtx(ctx, n), n + 1, x, src, Ends(), r);
    LegalSeqLands(body, OUTSIDE, x);
    RunExits(s.body, 0, x.user, ctx.hasResult);
    JRunConcat(body, [JReturn(RetBool(true))], x);
    if r.JDone? {
      if r.comp == JNormal {
        RunOne(JReturn(RetBool(true)), r.ts);
        assert Below(RangeReturn(n), n + 1);
      } else {
        CallbackCompletion(ctx, n, src.comp, r.comp, r.ts);
        assert Below(RangeReturn(n), n + 1);
        assert Kept(n, x.vars, r.ts.vars, {});
      }
    }
  }

  lemma {:induction false} RangeStepTracks(ctx: Ctx, n: nat, s: Stmt, own: Option<Label>, body: seq<JS>, call: JS,
                                           ts: JState, r: RangeState, x: JRangeState)
    requires s.RangeFunc? && Sane(s, ctx.hasResult)
    requires BodyFollows(RangeCtx(ctx, n), n + 1, s.body, body) && LegalSeq(body, OUTSIDE)
    requires call == JCallRange(s.it, s.bind, body + [JReturn(RetBool(true))])
    requires RangeRel(n, ctx.hasResult, ts, r, x)
    ensures match JRangeStep(call, x)
            case Next(y) => RangeStep(s, own, r).Next? && RangeRel(n, ctx.hasResult, ts, RangeStep(s, own, r).s, y)
            case Stop(q) => RangeStep(s, own, r).Stop? && RangeAgree(n, ctx.hasResult, ts, RangeStep(s, own, r).r, q)
  {
    match s.it.resume(r.it, r.go, r.st)
    case Finish(_) =>
    case Yield(_, arg, st1) =>
      assert r.go;
      CallbackFollows(ctx, n, s, own, body, x.ts.(user := s.bind(arg, st1)));
  }

  lemma {:induction false} RangeCallFollows(ctx: Ctx, n: nat, s: Stmt, own: Option<Label>, body: seq<JS>, ts: JState)
    requires s.RangeFunc? && Sane(s, ctx.hasResult)
    requires BodyFollows(RangeCtx(ctx, n), n + 1, s.body, body) && LegalSeq(body, OUTSIDE)
    requires Lookup(ts.vars, RangeReturn(n)) == Bool(false)
    ensures RangeAgree(n, ctx.hasResult, ts, Exec(s, own, ts.user),
                       JExec(JCallRange(s.it, s.bind, body + [JReturn(RetBool(true))]), {}, ts))
  {
    var call := JCallRange(s.it, s.bind, body + [JReturn(RetBool(true))]);
    var (i, st1) := s.it.start(ts.user);
    var slow, fast := RangeStepFn(s, own), JRangeStepFn(call);
    var rel, agree := (r: RangeState, x: JRangeState) => RangeRel(n, ctx.hasResult, ts, r, x),
        (o: Outcome, q: JOutcome) => RangeAgree(n, ctx.hasResult, ts, o, q);
    forall r, x | rel(r, x) ensures Tracks(slow, fast, Diverge, rel, agree, r, x) {
      RangeStepTracks(ctx, n, s, own, body, call, ts, r, x);
      assert slow(r) == RangeStep(s, own, r) && fast(x) == JRangeStep(call, x);
      LoopUnfold(slow, r, Diverge);
      if fast(x).Next? {
        assert Iter(slow, slow(r).s, 0) == Next(slow(r).s);
        assert Iter(slow, r, 1) == Next(slow(r).s);
        assert Reaches(slow, r, slow(r).s);
      }
    }
    LoopSimulation(slow, fast, Diverge, JDiverge, rel, agree,
                   RangeState(i, true, Normal, st1), JRangeState(i, true, ts.(user := st1)));
  }

  /** What follows the call: a return that was asked for is passed on, outwards or to the
      enclosing callback. */
  lemma {:induction false} RangeReturnFollows(ctx: Ctx, n: nat, c: Comp, ts: JState)
    requires FlagSays(n, c, ts.vars) && (ctx.range.Some? ==> ctx.range.value < n)
    requires c.Returned? ==> c.result.Some? == ctx.hasResult
    ensures Follows(ctx, n, ts, Done(c, ts.user), Ends(),
                    JExec(JIfVar(RangeReturn(n), true, RangeReturnCode(ctx, n)), {}, ts))
  {
    if c.Returned? {
      var code := RangeReturnCode(ctx, n);
      if ctx.range.Some? {
        var p := ctx.range.value;
        var t1 := ts.(vars := ts.vars[RangeReturn(p) := Bool(true)]);
        var t2 :=
          if ctx.hasResult then t1.(vars := t1.vars[RangeReturnValue(p) := Lookup(t1.vars, RangeReturnValue(n))])
          else t1;
        var last := JReturn(RetBool(false));
        RunOne(last, t2);
        if ctx.hasResult {
          assert code[1..][1..] == [last];
          assert JRun(code[1..], t1) == JRun([last], t2);
        } else {
          assert code[1..] == [last];
        }
        assert JRun(code, ts) == JDone(JReturned(Bool(false)), t2);
      } else {
        RunOne(code[0], ts);
        assert code == [code[0]];
      }
    }
  }

  lemma {:induction false} RangeFollows(ctx: Ctx, n: nat, s: Stmt, own: Option<Label>, body: seq<JS>, ts: JState)
    requires s.RangeFunc? && Sane(s, ctx.hasResult) && (ctx.range.Some? ==> ctx.range.value < n)
    requires BodyFollows(RangeCtx(ctx, n), n + 1, s.body, body) && LegalSeq(body, OUTSIDE)
    ensures Follows(ctx, n, ts, Exec(s, own, ts.user), Ends(), JRun(RangeCode(ctx, s.it, s.bind, body, n), ts))
  {
    var call, check := JCallRange(s.it, s.bind, body + [JReturn(RetBool(true))]),
        JIfVar(RangeReturn(n), true, RangeReturnCode(ctx, n));
    var code := RangeCode(ctx, s.it, s.bind, body, n);
    var t1 := ts.(vars := ts.vars[RangeReturn(n) := Bool(false)]);
    var t2 := if ctx.hasResult then t1.(vars := t1.vars[RangeReturnValue(n) := Undefined]) else t1;
    if ctx.hasResult {
      assert code[1..][1..] == [call, check];
      assert JRun(code[1..], t1) == JRun([call, check], t2);
    } else {
      assert code[1..] == [call, check];
    }
    assert JRun(code, ts) == JRun([call, check], t2);
    assert Kept(n, ts.vars, t2.vars, {});
    RangeCallFollows(ctx, n, s, own, body, t2);
    var o, q := Exec(s, own, ts.user), JExec(call, {}, t2);
    assert [call, check][1..] == [check];
    if q.JDone? {
      RunOne(check, q.ts);
      RangeReturnFollows(ctx, n, o.comp, q.ts);
    }
  }
}
