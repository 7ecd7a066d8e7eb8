/** The lowering preserves meaning: emitted code follows its source in every context. */
module LoweringProof {
  import opened GoSource
  import opened JsTarget
  import opened GotoAnalysis
  import opened Lowering
  import opened SourceChecks
  import opened Sublists
  import opened ListRuns
  import opened Captures
  import opened Simulation
  import opened Constructs
  import opened Regions

  lemma {:induction false} FineBody(s: Stmt, ctx: Ctx, n: nat)
    requires Fine(s, ctx)
    ensures s.Block? ==> FineFrom(s.body, 0, ctx)
    ensures s.If? ==> FineFrom(s.thn, 0, ctx) && FineFrom(s.els, 0, ctx)
    ensures s.For? ==> FineFrom(s.body, 0, ForCtx(ctx, !s.ranged && NeedsLoopLabel(s.body), n))
    ensures s.RangeFunc? ==> FineFrom(s.body, 0, RangeCtx(ctx, n))
  {
    hide FaithfulFrom, SaneIn;
  }

  ghost predicate ClausesFine(clauses: seq<Clause>, ctx: Ctx)
  {
    FaithfulClauses(FlowOf(ClauseCtx(ctx)), clauses) &&
    forall k :: 0 <= k < |clauses| ==> SaneIn(clauses[k].body, ctx.hasResult)
  }

  lemma {:induction false} FineClauses(s: Stmt, ctx: Ctx)
    requires s.Switch? && Fine(s, ctx)
    ensures ClausesFine(s.clauses, ctx)
  {
    hide FaithfulClauses, SaneIn;
    assert FlowOf(ClauseCtx(ctx)) == ClauseFlow(FlowOf(ctx));
  }

  lemma {:induction false} SimStmt(ctx: Ctx, env: Env, s: Stmt, own: Option<Label>, n: nat, ts: JState)
    requires Ready(ctx, env, LabelsOf(s), n) && Fine(s, ctx)
    requires s.For? ==> own.None?
    requires LowerStmt(ctx, s, n).ok && LegalSeq(LowerStmt(ctx, s, n).code, env)
    ensures Follows(ctx, n, ts, Exec(s, own, ts.user), Ends(), JRun(LowerStmt(ctx, s, n).code, ts))
    decreases StmtSize(s), 1, 0
  {
    hide LowerFrom, Ready, FineFrom, LabelsIn, LegalSeq, Size;
    var code := LowerStmt(ctx, s, n).code;
    match s
    case Empty =>
    case Act(_) => RunOne(code[0], ts);
    case Block(_) => SimBlock(ctx, env, s, n, ts);
    case If(_, _, _) => SimIf(ctx, env, s, n, ts);
    case For(_, _, _, _, _) =>
      LegalOne(code[0], env);
      RunOne(code[0], ts);
      SimFor(ctx, env, s, None, n, ts);
    case Switch(_, _) => SimSwitch(ctx, env, s, n, ts);
    case RangeFunc(_, _, _) => SimRange(ctx, env, s, own, n, ts);
    case Goto(l) => SimGoto(ctx, l, n, ts);
    case Return(e) => SimReturn(ctx, e, n, ts);
    case _ => SimBranch(ctx, s, n, ts);
  }

  lemma {:induction false} SimBranch(ctx: Ctx, s: Stmt, n: nat, ts: JState)
    requires s.Break? || s.Continue? || s.BreakTo? || s.ContinueTo?
    ensures Follows(ctx, n, ts, Exec(s, None, ts.user), Ends(), JRun(LowerStmt(ctx, s, n).code, ts))
  {
    RunOne(LowerStmt(ctx, s, n).code[0], ts);
  }

  lemma {:induction false} SimBlock(ctx: Ctx, env: Env, s: Stmt, n: nat, ts: JState)
    requires s.Block? && Ready(ctx, env, LabelsOf(s), n) && Fine(s, ctx)
    requires LowerStmt(ctx, s, n).ok && LegalSeq(LowerStmt(ctx, s, n).code, env)
    ensures Follows(ctx, n, ts, Exec(s, None, ts.user), Ends(), JRun(LowerStmt(ctx, s, n).code, ts))
    decreases StmtSize(s), 0, 0
  {
    hide LowerFrom, Ready, FineFrom, LabelsIn, LegalSeq, Size;
    var code := LowerStmt(ctx, s, n).code;
    FineBody(s, ctx, n);
    LegalOne(code[0], env);
    RunOne(code[0], ts);
    SimFrom(ctx, env, s.body, 0, n, ts);
  }

  lemma {:induction false} SimSwitch(ctx: Ctx, env: Env, s: Stmt, n: nat, ts: JState)
    requires s.Switch? && Ready(ctx, env, LabelsOf(s), n) && Fine(s, ctx)
    requires LowerStmt(ctx, s, n).ok && LegalSeq(LowerStmt(ctx, s, n).code, env)
    ensures Follows(ctx, n, ts, Exec(s, None, ts.user), Ends(), JRun(LowerStmt(ctx, s, n).code, ts))
    decreases StmtSize(s), 0, 0
  {
    hide LowerClauses, Ready, FineFrom, LabelsInClauses, LegalSeq, ClausesSize, ClausesFine;
    var code := LowerStmt(ctx, s, n).code;
    var (i, st1) := s.pick(ts.user);
    FineClauses(s, ctx);
    LegalOne(code[0], env);
    RunOne(code[0], ts);
    SimClauses(ctx, env, s.clauses, i, n, ts.(user := st1));
  }

  lemma {:induction false} SimGoto(ctx: Ctx, l: Label, n: nat, ts: JState)
    requires GotoStmts(ctx, l, n).ok
    ensures Follows(ctx, n, ts, Done(Jumped(l), ts.user), Ends(), JRun(GotoStmts(ctx, l, n).code, ts))
  {
    var code := GotoStmts(ctx, l, n).code;
    if ctx.state.Some? && l in ctx.state.value.labels {
      var t1 := ts.(vars := ts.vars[GotoState(ctx.state.value.id) := Str(l)]);
      RunOne(code[1], t1);
      assert code[1..] == [code[1]];
      assert JExec(code[0], {}, ts) == JDone(JNormal, t1);
    } else {
      RunOne(code[0], ts);
    }
  }

  lemma {:induction false} SimReturn(ctx: Ctx, e: Option<Store -> Value>, n: nat, ts: JState)
    ensures Follows(ctx, n, ts, Exec(Return(e), None, ts.user), Ends(), JRun(ReturnStmts(ctx, e), ts))
  {
    var code := ReturnStmts(ctx, e);
    match ctx.range
    case None => RunOne(code[0], ts);
    case Some(r) =>
      var last := JReturn(RetBool(false));
      var t1 := ts.(vars := ts.vars[RangeReturn(r) := Bool(true)]);
      assert JExec(code[0], {}, ts) == JDone(JNormal, t1);
      if e.Some? {
        var t2 := t1.(vars := t1.vars[RangeReturnValue(r) := Num(e.value(t1.user))]);
        RunOne(last, t2);
        assert code[1..][1..] == [last];
        assert JExec(code[1..][0], {}, t1) == JDone(JNormal, t2);
        assert JRun(code[1..], t1) == JRun([last], t2);
      } else {
        RunOne(last, t1);
        assert code[1..] == [last];
        assert JRun(code[1..], t1) == JRun([last], t1);
      }
  }

  lemma {:induction false} SimIf(ctx: Ctx, env: Env, s: Stmt, n: nat, ts: JState)
    requires s.If? && Ready(ctx, env, LabelsOf(s), n) && Fine(s, ctx)
    requires LowerStmt(ctx, s, n).ok && LegalSeq(LowerStmt(ctx, s, n).code, env)
    ensures Follows(ctx, n, ts, Exec(s, None, ts.user), Ends(), JRun(LowerStmt(ctx, s, n).code, ts))
    decreases StmtSize(s), 0, 0
  {
    hide LowerFrom, Ready, FineFrom, LabelsIn, LegalSeq, Size;
    var code := LowerStmt(ctx, s, n).code;
    FineBody(s, ctx, n);
    LegalOne(code[0], env);
    RunOne(code[0], ts);
    var (b, st1) := s.cond(ts.user);
    var a := LowerFrom(ctx, s.thn, 0, n);
    if b {
      ReadyWithin(ctx, env, LabelsOf(s), n, LabelsIn(s.thn), n);
      SimFrom(ctx, env, s.thn, 0, n, ts.(user := st1));
    } else {
      ReadyWithin(ctx, env, LabelsOf(s), n, LabelsIn(s.els), a.next);
      SimFrom(ctx, env, s.els, 0, a.next, ts.(user := st1));
    }
  }

  /** A for loop, with the label in front of it if there is one. */
  lemma {:induction false} SimFor(ctx: Ctx, env: Env, s: Stmt, own: Option<Label>, n: nat, ts: JState)
    requires s.For? && Ready(ctx, env, LabelsOf(s), n) && Fine(s, ctx)
    requires own.Some? ==>
      own.value !in GotosOf(s) && own.value !in LabelsOf(s) &&
      (ctx.state.Some? ==> own.value !in ctx.state.value.labels)
    requires LowerStmt(ctx, s, n).ok && Legal(LowerStmt(ctx, s, n).code[0], OwnNames(own), env)
    ensures Follows(ctx, n, ts, Exec(s, own, ts.user), Ends(), JExec(LowerStmt(ctx, s, n).code[0], OwnNames(own), ts))
    decreases StmtSize(s), 0, 0
  {
    hide LowerFrom, Ready, FineFrom, LabelsIn, LegalSeq, Size, Follows, BodyFollows;
    var named := !s.ranged && NeedsLoopLabel(s.body);
    var inner, b := ForCtx(ctx, named, n), LowerFrom(ForCtx(ctx, named, n), s.body, 0, n + 1);
    var within := ForEnv(env, own, named, n);
    ForLegal(s, b.code, env, own, named, n);
    ForReady(ctx, env, LabelsOf(s), own, named, n);
    FineBody(s, ctx, n);
    SimBody(inner, within, s.body, n + 1);
    ForFollows(ctx, n, s, own, named, b.code, ts);
  }

  function ForEnv(env: Env, own: Option<Label>, named: bool, n: nat): Env
  {
    var names := if named then {LoopName(n)} else {};
    Env(env.breaks + names, env.continues + (OwnNames(own) + names), true, true)
  }

  lemma {:induction false} ForLegal(s: Stmt, body: seq<JS>, env: Env, own: Option<Label>, named: bool, n: nat)
    requires s.For?
    requires var loop := JLoop(s.init, s.cond, s.post, body);
      Legal(if named then JLabeled(LoopName(n), loop) else loop, OwnNames(own), env)
    ensures LegalSeq(body, ForEnv(env, own, named, n))
  {
    var loop := JLoop(s.init, s.cond, s.post, body);
    if named {
      assert Legal(loop, OwnNames(own) + {LoopName(n)}, env.(breaks := env.breaks + {LoopName(n)}));
    } else {
      assert OwnNames(own) + {} == OwnNames(own) && env.breaks + {} == env.breaks;
    }
  }

  lemma {:induction false} ForReady(ctx: Ctx, env: Env, labels: multiset<Label>, own: Option<Label>, named: bool,
                                    n: nat)
    requires Ready(ctx, env, labels, n)
    requires own.Some? ==> own.value !in labels && (ctx.state.Some? ==> own.value !in ctx.state.value.labels)
    ensures Ready(ForCtx(ctx, named, n), ForEnv(env, own, named, n), labels, n + 1)
    ensures ctx.loopLabel.Some? ==> ctx.loopLabel.value < n
  {
  }

  lemma {:induction false} SimRange(ctx: Ctx, env: Env, s: Stmt, own: Option<Label>, n: nat, ts: JState)
    requires s.RangeFunc? && Ready(ctx, env, LabelsOf(s), n) && Fine(s, ctx)
    requires LowerStmt(ctx, s, n).ok && LegalSeq(LowerStmt(ctx, s, n).code, env)
    ensures Follows(ctx, n, ts, Exec(s, own, ts.user), Ends(), JRun(LowerStmt(ctx, s, n).code, ts))
    decreases StmtSize(s), 0, 0
  {
    hide LowerFrom, Ready, FineFrom, LabelsIn, LegalSeq, Size, Follows, BodyFollows;
    var inner, b := RangeCtx(ctx, n), LowerFrom(RangeCtx(ctx, n), s.body, 0, n + 1);
    RangeLegal(ctx, env, s, b.code, n);
    RangeReady(ctx, env, LabelsOf(s), n);
    FineBody(s, ctx, n);
    SimBody(inner, OUTSIDE, s.body, n + 1);
    RangeFollows(ctx, n, s, own, b.code, ts);
  }

  lemma {:induction false} RangeLegal(ctx: Ctx, env: Env, s: Stmt, body: seq<JS>, n: nat)
    requires s.RangeFunc? && LegalSeq(RangeCode(ctx, s.it, s.bind, body, n), env)
    ensures LegalSeq(body, OUTSIDE)
  {
    var code := RangeCode(ctx, s.it, s.bind, body, n);
    assert Legal(code[|code| - 2], {}, env);
    LegalConcat(body, [JReturn(RetBool(true))], OUTSIDE);
  }

  lemma {:induction false} RangeReady(ctx: Ctx, env: Env, labels: multiset<Label>, n: nat)
    requires Ready(ctx, env, labels, n)
    ensures Ready(RangeCtx(ctx, n), OUTSIDE, labels, n + 1)
    ensures ctx.range.Some? ==> ctx.range.value < n
  {
  }

  lemma {:induction false} NoClauses(ctx: Ctx, n: nat, ts: JState, i: nat)
    ensures Follows(ctx, n, ts, RunClauses([], i, ts.user), Ends(),
                    JRunCases(LowerClauses(ClauseCtx(ctx), [], n).0, i, ts))
  {
  }

  /** The first case and the others. */
  lemma {:induction false} ClauseParts(ctx: Ctx, env: Env, clauses: seq<Clause>, n: nat)
    requires clauses != []
    ensures var b := LowerFrom(ctx, clauses[0].body, 0, n);
            var (cases, _, ok) := LowerClauses(ctx, clauses, n);
            var (rest, _, more) := LowerClauses(ctx, clauses[1..], b.next);
            && cases == [JCase(b.code + (if clauses[0].fallsThrough then [] else [JBreak]))] + rest
            && cases[1..] == rest
            && b.next >= n && (ok ==> more)
            && ((forall k :: 0 <= k < |cases| ==> LegalSeq(cases[k].body, env)) ==>
                forall k :: 0 <= k < |rest| ==> LegalSeq(rest[k].body, env))
  {
    hide LowerFrom, LegalSeq;
    var b := LowerFrom(ctx, clauses[0].body, 0, n);
    var cases, rest := LowerClauses(ctx, clauses, n).0, LowerClauses(ctx, clauses[1..], b.next).0;
    assert forall k :: 0 <= k < |rest| ==> rest[k] == cases[k + 1];
  }

  /** The clauses of a switch from clause `i` on. */
  lemma {:induction false} SimClauses(ctx: Ctx, env: Env, clauses: seq<Clause>, i: nat, n: nat, ts: JState)
    requires Ready(ctx, env, LabelsInClauses(clauses), n) && ClausesFine(clauses, ctx)
    requires var (cases, _, ok) := LowerClauses(ClauseCtx(ctx), clauses, n);
      ok && forall k :: 0 <= k < |cases| ==> LegalSeq(cases[k].body, env.(breakable := true))
    ensures Follows(ctx, n, ts, RunClauses(clauses, i, ts.user), Ends(),
                    JRunCases(LowerClauses(ClauseCtx(ctx), clauses, n).0, i, ts))
    decreases ClausesSize(clauses), 1, 0
  {
    hide LowerFrom, LowerClauses, Ready, Legal, LegalSeq, Size, ClausesFine, FineFrom, LabelsIn, JRun, RunFrom, Follows;
    if clauses == [] {
      NoClauses(ctx, n, ts, i);
    } else {
      var inner := ClauseCtx(ctx);
      var b := LowerFrom(inner, clauses[0].body, 0, n);
      var cases, rest := LowerClauses(inner, clauses, n).0, LowerClauses(inner, clauses[1..], b.next).0;
      ClauseParts(inner, env.(breakable := true), clauses, n);
      ReadyWithin(ctx, env, LabelsInClauses(clauses), n, LabelsInClauses(clauses[1..]), b.next);
      LaterFine(clauses, ctx);
      if i == 0 {
        SimFirstClause(ctx, env, clauses, n, ts);
        var r := JRun(b.code, ts);
        if r.JDone? && r.comp == JNormal {
          SimClauses(ctx, env, clauses[1..], 0, b.next, r.ts);
        }
        FirstClauseFollows(ctx, n, b.next, clauses, b.code, rest, ts);
      } else {
        SimClauses(ctx, env, clauses[1..], i - 1, b.next, ts);
        ClausesShift(clauses, i - 1, ts.user);
        CasesShift(cases, i - 1, ts);
        FollowsBelow(ctx, n, b.next, ts, RunClauses(clauses, i, ts.user), JRunCases(cases, i, ts));
      }
    }
  }

  lemma {:induction false} LaterFine(clauses: seq<Clause>, ctx: Ctx)
    requires clauses != [] && ClausesFine(clauses, ctx)
    ensures FineFrom(clauses[0].body, 0, ClauseCtx(ctx)) && ClausesFine(clauses[1..], ctx)
  {
    hide FaithfulFrom, SaneIn;
    forall k | 0 <= k < |clauses[1..]| ensures SaneIn(clauses[1..][k].body, ctx.hasResult) {
      assert clauses[1..][k] == clauses[k + 1];
    }
  }

  lemma {:induction false} SimFirstClause(ctx: Ctx, env: Env, clauses: seq<Clause>, n: nat, ts: JState)
    requires clauses != [] && Ready(ctx, env, LabelsInClauses(clauses), n) && ClausesFine(clauses, ctx)
    requires var (cases, _, ok) := LowerClauses(ClauseCtx(ctx), clauses, n);
      ok && LegalSeq(cases[0].body, env.(breakable := true))
    ensures Follows(ClauseCtx(ctx), n, ts, RunFrom(clauses[0].body, 0, ts.user), Ends(),
                    JRun(LowerFrom(ClauseCtx(ctx), clauses[0].body, 0, n).code, ts))
    decreases ClausesSize(clauses), 0, 0
  {
    hide LowerFrom, FineFrom, ClausesFine, LabelsIn, LegalSeq, Size, Follows;
    var inner, within := ClauseCtx(ctx), env.(breakable := true);
    var b := LowerFrom(inner, clauses[0].body, 0, n);
    LegalConcat(b.code, if clauses[0].fallsThrough then [] else [JBreak], within);
    ReadyWithin(ctx, env, LabelsInClauses(clauses), n, LabelsIn(clauses[0].body), n);
    LaterFine(clauses, ctx);
    SimFrom(inner, within, clauses[0].body, 0, n, ts);
  }

  lemma {:induction false} FollowsBelow(ctx: Ctx, n: nat, m: nat, ts: JState, src: Outcome, r: JOutcome)
    requires n <= m && Follows(ctx, m, ts, src, Ends(), r)
    ensures Follows(ctx, n, ts, src, Ends(), r)
  {
  }

  lemma {:induction false} LabelReady(ctx: Ctx, env: Env, it: Item, n: nat)
    requires it.lab.Some? && Ready(ctx, env, ItemLabels(it), n)
    ensures var l := it.lab.value;
      l !in LabelsOf(it.stmt) && l !in ctx.forwardGotos && (ctx.state.Some? ==> l !in ctx.state.value.labels) &&
      Src(l) !in env.breaks && Ready(ctx, env.(breaks := env.breaks + {Src(l)}), LabelsOf(it.stmt), n)
  {
    var l := it.lab.value;
    assert ItemLabels(it) == multiset{l} + LabelsOf(it.stmt);
    assert l in ItemLabels(it) && ItemLabels(it)[l] == 1;
    DistinctBelow(LabelsOf(it.stmt), ItemLabels(it));
  }

  /** A statement with its label. */
  lemma {:induction false} SimItem(ctx: Ctx, env: Env, it: Item, n: nat, ts: JState)
    requires Ready(ctx, env, ItemLabels(it), n) && Fine(it.stmt, ctx)
    requires it.lab.Some? ==> it.lab.value !in GotosOf(it.stmt)
    requires LowerItem(ctx, it, n).ok && LegalSeq(LowerItem(ctx, it, n).code, env)
    ensures Follows(ctx, n, ts, ExecItem(it, ts.user), Ends(), JRun(LowerItem(ctx, it, n).code, ts))
    decreases StmtSize(it.stmt), 2, 0
  {
    hide LowerFrom, Ready, Fine, Legal, Follows, LabelsOf;
    var s := it.stmt;
    ReadyWithin(ctx, env, ItemLabels(it), n, LabelsOf(s), n);
    if it.lab.None? {
      SimStmt(ctx, env, s, it.lab, n, ts);
    } else if LowerStmt(ctx, s, n).code == [] {
      SimEmptyItem(ctx, it, n, ts);
    } else if RendersAsBlock(s) {
      SimBlockItem(ctx, env, it, n, ts);
    } else if s.For? {
      SimForItem(ctx, env, it, n, ts);
    } else {
      SimSimple(ctx, env, it, n, ts);
    }
  }

  lemma {:induction false} SimEmptyItem(ctx: Ctx, it: Item, n: nat, ts: JState)
    requires LowerStmt(ctx, it.stmt, n).ok && LowerStmt(ctx, it.stmt, n).code == []
    ensures Follows(ctx, n, ts, ExecItem(it, ts.user), Ends(), JRun(LowerItem(ctx, it, n).code, ts))
  {
    assert it.stmt.Empty?;
  }

  lemma {:induction false} SimBlockItem(ctx: Ctx, env: Env, it: Item, n: nat, ts: JState)
    requires it.lab.Some? && RendersAsBlock(it.stmt) && Ready(ctx, env, ItemLabels(it), n) && Fine(it.stmt, ctx)
    requires var a := LowerStmt(ctx, it.stmt, n);
      a.ok && a.code != [] && LegalSeq([JLabeled(Src(it.lab.value), JBlock(a.code))], env)
    ensures Follows(ctx, n, ts, ExecItem(it, ts.user), Ends(),
                    JRun([JLabeled(Src(it.lab.value), JBlock(LowerStmt(ctx, it.stmt, n).code))], ts))
    decreases StmtSize(it.stmt), 1, 1
  {
    var a, l := LowerStmt(ctx, it.stmt, n).code, it.lab.value;
    var whole := JLabeled(Src(l), JBlock(a));
    LabelReady(ctx, env, it, n);
    LegalOne(whole, env);
    RunOne(whole, ts);
    SimStmt(ctx, env.(breaks := env.breaks + {Src(l)}), it.stmt, it.lab, n, ts);
    LabelCaught(ctx, it, n, ts, JRun(a, ts));
  }

  lemma {:induction false} SimForItem(ctx: Ctx, env: Env, it: Item, n: nat, ts: JState)
    requires it.lab.Some? && it.stmt.For? && Ready(ctx, env, ItemLabels(it), n) && Fine(it.stmt, ctx)
    requires it.lab.value !in GotosOf(it.stmt)
    requires LowerItem(ctx, it, n).ok && LegalSeq(LowerItem(ctx, it, n).code, env)
    ensures Follows(ctx, n, ts, ExecItem(it, ts.user), Ends(), JRun(LowerItem(ctx, it, n).code, ts))
    decreases StmtSize(it.stmt), 1, 1
  {
    var loop, l := LowerStmt(ctx, it.stmt, n).code[0], it.lab.value;
    var whole := JLabeled(Src(l), loop);
    assert LowerItem(ctx, it, n).code == [whole];
    LabelReady(ctx, env, it, n);
    LegalOne(whole, env);
    RunOne(whole, ts);
    assert {} + {Src(l)} == OwnNames(it.lab);
    SimFor(ctx, env.(breaks := env.breaks + {Src(l)}), it.stmt, it.lab, n, ts);
    LabelCaught(ctx, it, n, ts, JExec(loop, OwnNames(it.lab), ts));
  }

  /** The emitted label catches exactly the breaks the source label catches. */
  lemma {:induction false} LabelCaught(ctx: Ctx, it: Item, n: nat, ts: JState, r: JOutcome)
    requires it.lab.Some? && it.lab.value !in ctx.forwardGotos
    requires Follows(ctx, n, ts, Exec(it.stmt, it.lab, ts.user), Ends(), r)
    ensures Follows(ctx, n, ts, ExecItem(it, ts.user), Ends(),
      match r
      case JDiverge => JDiverge
      case JDone(c, ts1) => JDone(if c == JBrokeTo(Src(it.lab.value)) then JNormal else c, ts1))
  {
  }

  /** The label of a statement that is neither a loop nor a block labels its first part only. */
  lemma {:induction false} SimSimple(ctx: Ctx, env: Env, it: Item, n: nat, ts: JState)
    requires it.lab.Some? && !RendersAsBlock(it.stmt) && !it.stmt.For? && LowerStmt(ctx, it.stmt, n).code != []
    requires Ready(ctx, env, ItemLabels(it), n) && Fine(it.stmt, ctx)
    requires LowerItem(ctx, it, n).ok && LegalSeq(LowerItem(ctx, it, n).code, env)
    ensures Follows(ctx, n, ts, ExecItem(it, ts.user), Ends(), JRun(LowerItem(ctx, it, n).code, ts))
    decreases StmtSize(it.stmt), 1, 2
  {
    hide LowerFrom, Ready, Fine, Legal, LegalSeq, Follows, LabelsOf;
    var a := LowerStmt(ctx, it.stmt, n).code;
    if |a| == 1 {
      assert LowerItem(ctx, it, n).code == [JLabeled(Src(it.lab.value), a[0])];
      assert a == [a[0]];
      SimOnePart(ctx, env, it, n, ts, a[0]);
    } else {
      SimParts(ctx, it, n, ts);
    }
  }

  lemma {:induction false} SimOnePart(ctx: Ctx, env: Env, it: Item, n: nat, ts: JState, part: JS)
    requires it.lab.Some? && !it.stmt.For? && !part.JLoop? && !part.JLabeled?
    requires LowerStmt(ctx, it.stmt, n).ok && LowerStmt(ctx, it.stmt, n).code == [part]
    requires Ready(ctx, env, ItemLabels(it), n) && Fine(it.stmt, ctx)
    requires LegalSeq([JLabeled(Src(it.lab.value), part)], env)
    ensures Follows(ctx, n, ts, ExecItem(it, ts.user), Ends(), JRun([JLabeled(Src(it.lab.value), part)], ts))
    decreases StmtSize(it.stmt), 1, 1
  {
    var l := it.lab.value;
    var within := env.(breaks := env.breaks + {Src(l)});
    LabelReady(ctx, env, it, n);
    LegalOne(JLabeled(Src(l), part), env);
    UnlabelledPart(part, Src(l), env);
    LegalOne(part, within);
    RunOne(part, ts);
    RunOne(JLabeled(Src(l), part), ts);
    SimStmt(ctx, within, it.stmt, it.lab, n, ts);
    assert JExec(part, {} + {Src(l)}, ts) == JExec(part, {}, ts);
    LabelCaught(ctx, it, n, ts, JExec(part, {}, ts));
  }

  /** Gotos and returns of several parts: the first part only sets a variable. */
  lemma {:induction false} SimParts(ctx: Ctx, it: Item, n: nat, ts: JState)
    requires it.lab.Some? && !RendersAsBlock(it.stmt) && !it.stmt.For?
    requires LowerStmt(ctx, it.stmt, n).ok && |LowerStmt(ctx, it.stmt, n).code| > 1
    ensures Follows(ctx, n, ts, ExecItem(it, ts.user), Ends(), JRun(LowerItem(ctx, it, n).code, ts))
  {
    var s, a, code := it.stmt, LowerStmt(ctx, it.stmt, n).code, LowerItem(ctx, it, n).code;
    assert s.Goto? || s.Return?;
    assert a[0].JSet? && code[0] == JLabeled(Src(it.lab.value), a[0]) && code[1..] == a[1..];
    assert JExec(code[0], {}, ts) == JExec(a[0], {}, ts);
    assert JRun(code, ts) == JRun(a, ts);
    if s.Goto? { SimGoto(ctx, s.lab, n, ts); } else { SimReturn(ctx, s.result, n, ts); }
  }

  lemma {:induction false} UnlabelledPart(a: JS, l: Name, env: Env)
    requires !a.JLabeled? && !a.JLoop? && Legal(JLabeled(l, a), {}, env)
    ensures Legal(a, {}, env.(breaks := env.breaks + {l}))
  {
    assert Legal(a, {} + {l}, env.(breaks := env.breaks + {l}));
  }

  // ----- statement lists -----

  lemma {:induction false} SimFrom(ctx: Ctx, env: Env, items: seq<Item>, idx: nat, n: nat, ts: JState)
    requires Ready(ctx, env, LabelsIn(items), n) && FineFrom(items, idx, ctx) && Standing(items, idx)
    requires LowerFrom(ctx, items, idx, n).ok && LegalSeq(LowerFrom(ctx, items, idx, n).code, env)
    ensures Follows(ctx, n, ts, RunFrom(items, idx, ts.user), Ends(), JRun(LowerFrom(ctx, items, idx, n).code, ts))
    decreases Size(items), 3, if idx < |items| then |items| - idx else 0
  {
    if idx >= |items| {
      RunUnfold(items, idx, ts.user);
    } else {
      hide LowerChunk, ChunkAt, Ready, SaneIn, FaithfulChunk, Legal, Size, LabelsIn, Standing;
      ReadyDistinct(ctx, env, LabelsIn(items), n);
      var a, next := LowerChunk(ctx, items, idx, n), NextIdx(ChunkAt(items, idx), idx);
      var b := LowerFrom(ctx, items, next, a.next);
      LegalConcat(a.code, b.code, env);
      SimChunk(ctx, env, items, idx, n, ts);
      StandingNext(items, idx);
      var r := JRun(a.code, ts);
      if r.JDone? && r.comp == JNormal {
        ReadyWithin(ctx, env, LabelsIn(items), n, LabelsIn(items), a.next);
        SimFrom(ctx, env, items, next, a.next, r.ts);
      }
      FollowsThen(ctx, n, a.next, ts, RunFrom(items, idx, ts.user), Onward(items, next), Ends(), a.code, b.code);
    }
  }

  /** The code of a whole list, from every state. */
  lemma {:induction false} SimBody(ctx: Ctx, env: Env, items: seq<Item>, n: nat)
    requires Ready(ctx, env, LabelsIn(items), n) && FineFrom(items, 0, ctx)
    requires LowerFrom(ctx, items, 0, n).ok && LegalSeq(LowerFrom(ctx, items, 0, n).code, env)
    ensures BodyFollows(ctx, n, items, LowerFrom(ctx, items, 0, n).code)
    decreases Size(items), 4, 0
  {
    forall x: JState
      ensures Follows(ctx, n, x, RunFrom(items, 0, x.user), Ends(), JRun(LowerFrom(ctx, items, 0, n).code, x))
    {
      SimFrom(ctx, env, items, 0, n, x);
    }
  }

  lemma {:induction false} SimChunk(ctx: Ctx, env: Env, items: seq<Item>, idx: nat, n: nat, ts: JState)
    requires idx < |items| && Ready(ctx, env, LabelsIn(items), n) && Standing(items, idx)
    requires SaneIn(items, ctx.hasResult) && FaithfulChunk(FlowOf(ctx), items, idx)
    requires LowerChunk(ctx, items, idx, n).ok && LegalSeq(LowerChunk(ctx, items, idx, n).code, env)
    ensures Follows(ctx, n, ts, RunFrom(items, idx, ts.user), Onward(items, NextIdx(ChunkAt(items, idx), idx)),
                    JRun(LowerChunk(ctx, items, idx, n).code, ts))
    decreases Size(items), 2, 0
  {
    hide ChunkAt, LowerFrom, LowerItem, LowerCluster, LowerLeading, LowerGroup, LowerBackward, Ready, SaneIn, LabelsIn,
         Size, Follows, Legal, LegalSeq, FaithfulRange, FaithfulLoop, FaithfulGroup, SurvivesIn, CaptRun, RunFrom;
    ReadyDistinct(ctx, env, LabelsIn(items), n);
    ChunkKind(items, idx);
    match ChunkAt(items, idx)
    case Plain =>
      SaneAt(items, idx, ctx.hasResult);
      SimPlain(ctx, env, items, idx, n, ts);
    case Cluster(first, end) =>
      SimCluster(ctx, env, items, idx, n, ts);
      NothingCaptured(items, Machine(idx, first, end), FlowOf(ctx), ctx.hasResult, idx, ts.user);
    case Leading(end) =>
      SimLeading(ctx, env, items, idx, end, n, ts);
      NothingCaptured(items, Labelled(idx + 1, end), FlowOf(ctx), ctx.hasResult, idx + 2, ts.user);
      LeadingJumps(items, idx, ts.user);
    case Group(last) => SimGroup(ctx, env, items, idx, last, n, ts);
    case Backward(end) =>
      SimBackward(ctx, env, items, idx, end, n, ts);
      NothingCaptured(items, Labelled(idx, end), FlowOf(ctx), ctx.hasResult, idx, ts.user);
  }

  lemma {:induction false} SimPlain(ctx: Ctx, env: Env, items: seq<Item>, idx: nat, n: nat, ts: JState)
    requires idx < |items| && Ready(ctx, env, LabelsIn(items), n) && Fine(items[idx].stmt, ctx)
    requires ChunkAt(items, idx).Plain?
    requires LowerItem(ctx, items[idx], n).ok && LegalSeq(LowerItem(ctx, items[idx], n).code, env)
    ensures Follows(ctx, n, ts, RunFrom(items, idx, ts.user), Onward(items, idx + 1),
                    JRun(LowerItem(ctx, items[idx], n).code, ts))
    decreases Size(items), 1, 0
  {
    var it := items[idx];
    SizeAt(items, idx);
    LabelsAt(items, idx);
    ReadyWithin(ctx, env, LabelsIn(items), n, ItemLabels(it), n);
    if it.lab.Some? && it.lab.value in GotosOf(it.stmt) {
      TargetIsBackward(items, idx, idx);
      assert false;
    }
    SimItem(ctx, env, it, n, ts);
    ItemStep(ctx, env, items, idx, n, n, ExecItem(it, ts.user), LowerItem(ctx, it, n).code, ts);
  }

  // ----- state clusters -----

  /** Labels inside the piece stand in front of the first state. */
  ghost predicate Bare(seg: seq<Item>, a: nat, first: nat)
  {
    forall k :: 0 <= k < |seg| && seg[k].lab.Some? ==> a + k < first
  }

  lemma {:induction false} LabelsInAt(items: seq<Item>, l: Label)
    requires l in LabelsIn(items)
    ensures exists k :: 0 <= k < |items| && (items[k].lab == Some(l) || l in LabelsOf(items[k].stmt))
  {
    if l in ItemLabels(items[0]) {
      assert items[0].lab == Some(l) || l in LabelsOf(items[0].stmt);
    } else {
      LabelsInAt(items[1..], l);
      var k :| 0 <= k < |items[1..]| && (items[1..][k].lab == Some(l) || l in LabelsOf(items[1..][k].stmt));
      assert items[k + 1] == items[1..][k];
    }
  }

  /** A label inside a piece of the list that sits at top level of the list sits at the top level of the piece. */
  lemma {:induction false} PieceLabel(items: seq<Item>, a: nat, seg: seq<Item>, q: nat, l: Label)
    requires Part(items, a, seg) && Distinct(LabelsIn(items)) && q < |items| && items[q].lab == Some(l)
    requires l in LabelsIn(seg)
    ensures a <= q < a + |seg| && seg[q - a].lab == Some(l)
  {
    LabelsInAt(seg, l);
    var k :| 0 <= k < |seg| && (seg[k].lab == Some(l) || l in LabelsOf(seg[k].stmt));
    LabelOnce(items, q, a + k, l);
  }

  lemma {:induction false} SegmentReady(ctx: Ctx, env: Env, items: seq<Item>, first: nat, end: nat, n: nat, m: nat,
                                        a: nat, seg: seq<Item>)
    requires first <= end < |items| && n < m && Ready(ctx, env, LabelsIn(items), n)
    requires Part(items, a, seg) && LabelsIn(seg) <= LabelsIn(items) && Bare(seg, a, first)
    ensures Ready(StateCtx(ctx, items, first, end, n), Inside(env, GotoLoop(n)), LabelsIn(seg), m)
  {
    hide LabelsIn;
    DistinctBelow(LabelsIn(seg), LabelsIn(items));
    forall l | l in LabelsBetween(items, first, end)
      ensures l !in LabelsIn(seg) && Src(l) !in env.breaks && Src(l) !in env.continues
    {
      var q :| first <= q < |items| && q <= end && items[q].lab == Some(l);
      LabelOnce(items, q, q, l);
      if l in LabelsIn(seg) { PieceLabel(items, a, seg, q, l); }
    }
  }

  lemma {:induction false} SegmentNoOwn(items: seq<Item>, a: nat, seg: seq<Item>)
    requires Part(items, a, seg) && Bare(seg, a, FirstTarget(items, 0))
    ensures NoOwnGotos(seg)
  {
    forall i, p | 0 <= i < |seg| && 0 <= p < |seg| && seg[p].lab.Some? ensures !GotoAt(seg, i, seg[p].lab.value) {
      if GotoAt(seg, i, seg[p].lab.value) { PieceTarget(items, a, seg, i, p); }
    }
  }

  lemma {:induction false} PieceTarget(items: seq<Item>, a: nat, seg: seq<Item>, i: nat, p: nat)
    requires Part(items, a, seg) && p < |seg| && seg[p].lab.Some? && GotoAt(seg, i, seg[p].lab.value)
    ensures TargetAt(items, a + p)
  {
    assert GotoAt(items, a + i, items[a + p].lab.value);
  }

  /** Every statement of the region is faithful. */
  ghost predicate RegionFine(ctx: Ctx, items: seq<Item>, start: nat, end: nat)
  {
    SaneIn(items, ctx.hasResult) &&
    forall k :: start <= k <= end && k < |items| ==> Faithful(FlowOf(ctx), items[k].stmt)
  }

  lemma {:induction false} PieceFine(ctx: Ctx, items: seq<Item>, start: nat, first: nat, end: nat, n: nat, a: nat,
                                     seg: seq<Item>)
    requires first == FirstTarget(items, 0) <= end < |items| && RegionFine(ctx, items, start, end)
    requires Part(items, a, seg) && Bare(seg, a, first) && start <= a && a + |seg| <= end + 1
    ensures FineFrom(seg, 0, StateCtx(ctx, items, first, end, n))
  {
    hide SaneIn, Faithful, NoOwnGotos;
    SegmentNoOwn(items, a, seg);
    SanePart(items, a, seg, ctx.hasResult);
    assert FlowOf(StateCtx(ctx, items, first, end, n)) == FlowOf(ctx);
    forall k | 0 <= k < |seg| ensures Faithful(FlowOf(ctx), seg[k].stmt) { assert seg[k].stmt == items[a + k].stmt; }
    PlainFaithful(FlowOf(ctx), seg, 0);
  }

  lemma {:induction false} SimSegment(ctx: Ctx, env: Env, items: seq<Item>, start: nat, first: nat, end: nat, n: nat,
                                      m: nat, a: nat, seg: seq<Item>)
    requires first == FirstTarget(items, 0) <= end < |items| && n < m
    requires Ready(ctx, env, LabelsIn(items), n) && RegionFine(ctx, items, start, end)
    requires Part(items, a, seg) && LabelsIn(seg) <= LabelsIn(items) && Bare(seg, a, first) && Size(seg) < Size(items)
    requires start <= a && a + |seg| <= end + 1
    requires var b := LowerFrom(StateCtx(ctx, items, first, end, n), seg, 0, m);
      b.ok && LegalSeq(b.code, Inside(env, GotoLoop(n)))
    ensures var inner := StateCtx(ctx, items, first, end, n);
      BodyFollows(inner, m, seg, LowerFrom(inner, seg, 0, m).code)
    decreases Size(items), 0, 0
  {
    var inner := StateCtx(ctx, items, first, end, n);
    SegmentReady(ctx, env, items, first, end, n, m, a, seg);
    PieceFine(ctx, items, start, first, end, n, a, seg);
    SimBody(inner, Inside(env, GotoLoop(n)), seg, m);
  }

  /** Legal code that follows a list never completes with a branch to a label that is not open,
      so its first statement does not either. */
  lemma {:induction false} CodeOwnFree(ctx: Ctx, n: nat, seg: seq<Item>, code: seq<JS>, env: Env, l: Label)
    requires |seg| > 0 && seg[0].lab.None? && BodyFollows(ctx, n, seg, code) && LegalSeq(code, env)
    requires Src(l) !in env.breaks && Src(l) !in env.continues
    ensures forall st :: OwnFree(Exec(seg[0].stmt, None, st), l)
  {
    forall st ensures OwnFree(Exec(seg[0].stmt, None, st), l) {
      var x := JState(st, map[]);
      assert Follows(ctx, n, x, RunFrom(seg, 0, x.user), Ends(), JRun(code, x));
      RunUnfold(seg, 0, st);
      LegalSeqLands(code, env, x);
    }
  }

  lemma {:induction false} SimSegments(ctx: Ctx, env: Env, items: seq<Item>, start: nat, first: nat, end: nat, i: nat,
                                       n: nat, m: nat, ts: JState, pc: nat, x: JState)
    requires start <= first == FirstTarget(items, 0) <= i <= pc <= end < |items| && items[i].lab.Some?
    requires items[pc].lab.Some? && n < m
    requires Ready(ctx, env, LabelsIn(items), n) && RegionFine(ctx, items, start, end)
    requires var segs := LowerSegments(StateCtx(ctx, items, first, end, n), items, i, end, n, m);
      segs.ok && forall k :: 0 <= k < |segs.cases| ==> LegalSeq(segs.cases[k].body, Inside(env, GotoLoop(n)))
    requires ClusterRel(items, start, first, end, n, ts, At(pc, x.user), x)
    ensures var segs := LowerSegments(StateCtx(ctx, items, first, end, n), items, i, end, n, m);
      var k := FirstCase(segs.values, Str(items[pc].lab.value), 0);
      k < |segs.cases| && CaseOk(ctx, n, items, start, first, end, ts, pc, x, JRun(segs.cases[k].body, x))
    decreases Size(items), 1, |items| - i
  {
    hide LowerFrom, RegionFine, Size, CaseOk;
    var inner := StateCtx(ctx, items, first, end, n);
    var j := NextLabel(items, i + 1, end);
    SegmentSize(items, i, j);
    var b := LowerFrom(inner, Segment(items, i, j), 0, m);
    var segs := LowerSegments(inner, items, i, end, n, m);
    if pc == i {
      assert segs.cases[0].body == b.code + CaseTail(n, items, j, end);
      SimHere(ctx, env, items, start, first, end, i, n, m, ts, x);
    } else {
      LabelOnce(items, i, pc, items[i].lab.value);
      SegmentsTail(inner, items, i, end, n, m, Str(items[pc].lab.value));
      SimSegments(ctx, env, items, start, first, end, j, n, b.next, ts, pc, x);
    }
  }

  /** A value that is not the first one is found among the rest. */
  lemma {:induction false} SegmentsTail(inner: Ctx, items: seq<Item>, i: nat, end: nat, n: nat, m: nat, v: Val)
    requires i <= end < |items| && items[i].lab.Some? && NextLabel(items, i + 1, end) <= end
    requires Str(items[i].lab.value) != v
    ensures var j := NextLabel(items, i + 1, end);
      var b := LowerFrom(inner, Segment(items, i, j), 0, m);
      var segs, rest := LowerSegments(inner, items, i, end, n, m), LowerSegments(inner, items, j, end, n, b.next);
      && FirstCase(segs.values, v, 0) == 1 + FirstCase(rest.values, v, 0)
      && |segs.cases| == 1 + |rest.cases|
      && (forall k :: 0 <= k < |rest.cases| ==> segs.cases[k + 1] == rest.cases[k])
      && (segs.ok ==> rest.ok)
  {
    var j := NextLabel(items, i + 1, end);
    var b := LowerFrom(inner, Segment(items, i, j), 0, m);
    var rest := LowerSegments(inner, items, j, end, n, b.next);
    FirstCaseShift(items[i].lab.value, rest.values, v, 0);
  }

  /** The case of the label at `i`. */
  lemma {:induction false} SimHere(ctx: Ctx, env: Env, items: seq<Item>, start: nat, first: nat, end: nat, i: nat,
                                   n: nat, m: nat, ts: JState, x: JState)
    requires start <= first == FirstTarget(items, 0) <= i <= end < |items| && items[i].lab.Some? && n < m
    requires Ready(ctx, env, LabelsIn(items), n) && RegionFine(ctx, items, start, end)
    requires var j := NextLabel(items, i + 1, end);
      var b := LowerFrom(StateCtx(ctx, items, first, end, n), Segment(items, i, j), 0, m);
      b.ok && LegalSeq(b.code + CaseTail(n, items, j, end), Inside(env, GotoLoop(n)))
    requires ClusterRel(items, start, first, end, n, ts, At(i, x.user), x)
    ensures var j := NextLabel(items, i + 1, end);
      var b := LowerFrom(StateCtx(ctx, items, first, end, n), Segment(items, i, j), 0, m);
      CaseOk(ctx, n, items, start, first, end, ts, i, x, JRun(b.code + CaseTail(n, items, j, end), x))
    decreases Size(items), 1, 0
  {
    hide LowerFrom, RegionFine, Ready, Size, LabelsIn, CaseOk, BodyFollows;
    var inner, within := StateCtx(ctx, items, first, end, n), Inside(env, GotoLoop(n));
    var j := NextLabel(items, i + 1, end);
    var seg := Segment(items, i, j);
    var b := LowerFrom(inner, seg, 0, m);
    LegalConcat(b.code, CaseTail(n, items, j, end), within);
    SegmentSize(items, i, j);
    SegmentLabels(items, i, j);
    SimSegment(ctx, env, items, start, first, end, n, m, i, seg);
    SegmentAlike(ctx, env, items, start, i, j, first, end, n, m, b.code);
    SegmentState(items, start, first, end, i, j);
    CaseFollows(ctx, env, items, start, first, end, n, m, i, seg, b.code, ts, x);
  }

  /** The statements up to the next label belong to one state. */
  lemma {:induction false} SegmentState(items: seq<Item>, start: nat, first: nat, end: nat, i: nat, j: nat)
    requires start <= first <= i <= end < |items| && items[i].lab.Some? && j == NextLabel(items, i + 1, end)
    requires !NamedEntry(items, Machine(start, first, end), i)
    ensures StateOf(items, start, first, i) == i && Within(items, Machine(start, first, end), i, j - i)
  {
    forall k | i <= k < j ensures StateOf(items, start, first, k) == i { StateBack(items, start, first, i, k); }
  }

  lemma {:induction false} StateBack(items: seq<Item>, start: nat, first: nat, i: nat, k: nat)
    requires first <= i <= k < |items| && items[i].lab.Some? && forall m :: i < m <= k ==> items[m].lab.None?
    ensures StateOf(items, start, first, k) == i
    decreases k
  {
    if i < k { StateBack(items, start, first, i, k - 1); }
  }

  lemma {:induction false} EntryState(items: seq<Item>, start: nat, first: nat, end: nat)
    requires start < first <= end < |items|
    ensures StateOf(items, start, first, start) == start &&
      Within(items, Machine(start, first, end), start, first - start)
  {
  }

  /** The label of a segment makes no difference to it. */
  lemma {:induction false} SegmentAlike(ctx: Ctx, env: Env, items: seq<Item>, start: nat, i: nat, j: nat, first: nat,
                                        end: nat, n: nat, m: nat, code: seq<JS>)
    requires i < j <= |items| && items[i].lab.Some? && Ready(ctx, env, LabelsIn(items), n)
    requires RegionFine(ctx, items, start, end)
    requires BodyFollows(StateCtx(ctx, items, first, end, n), m, Segment(items, i, j), code)
    requires LegalSeq(code, Inside(env, GotoLoop(n)))
    ensures RunsAs(items, i, Segment(items, i, j))
  {
    LabelOnce(items, i, i, items[i].lab.value);
    CodeOwnFree(StateCtx(ctx, items, first, end, n), m, Segment(items, i, j), code, Inside(env, GotoLoop(n)),
                items[i].lab.value);
    SaneAt(items, i, ctx.hasResult);
    SegmentRunsAs(items, i, j);
  }

  lemma {:induction false} SimEntry(ctx: Ctx, env: Env, items: seq<Item>, start: nat, first: nat, end: nat, n: nat,
                                    ts: JState, x: JState)
    requires start < first == FirstTarget(items, 0) <= end < |items| && items[first].lab.Some?
    requires Ready(ctx, env, LabelsIn(items), n) && RegionFine(ctx, items, start, end)
    requires var b := LowerFrom(StateCtx(ctx, items, first, end, n), items[start..first], 0, n + 1);
      b.ok && LegalSeq(b.code + CaseTail(n, items, first, end), Inside(env, GotoLoop(n)))
    requires ClusterRel(items, start, first, end, n, ts, At(start, x.user), x)
    ensures var b := LowerFrom(StateCtx(ctx, items, first, end, n), items[start..first], 0, n + 1);
      CaseOk(ctx, n, items, start, first, end, ts, start, x, JRun(b.code + CaseTail(n, items, first, end), x))
    decreases Size(items), 1, 0
  {
    hide LowerFrom, RegionFine, Ready, Size, LabelsIn, CaseOk, BodyFollows;
    var inner, seg := StateCtx(ctx, items, first, end, n), items[start..first];
    assert Distinct(LabelsIn(items)) by { ReadyDistinct(ctx, env, LabelsIn(items), n); }
    var b, tail := LowerFrom(inner, seg, 0, n + 1), CaseTail(n, items, first, end);
    LegalConcat(b.code, tail, Inside(env, GotoLoop(n)));
    SliceLabels(items, start, first);
    PartSize(items, start, first);
    SimSegment(ctx, env, items, start, first, end, n, n + 1, start, seg);
    SliceRunsAs(items, start, first);
    EntryState(items, start, first, end);
    CaseFollows(ctx, env, items, start, first, end, n, n + 1, start, seg, b.code, ts, x);
  }

  lemma {:induction false} ClusterLegal(n: nat, values: seq<string>, cases: seq<JCase>, env: Env, k: nat)
    requires values != [] && LegalSeq(ClusterCode(n, values, cases), env) && k < |cases|
    ensures LegalSeq(cases[k].body, Inside(env, GotoLoop(n)))
  {
    var code := ClusterCode(n, values, cases);
    var loop := code[1].stmt;
    assert Legal(code[1], {}, env);
    assert Legal(loop, {} + {GotoLoop(n)}, env.(breaks := env.breaks + {GotoLoop(n)}));
    var within := Inside(env, GotoLoop(n));
    assert env.continues + ({} + {GotoLoop(n)}) == within.continues;
    assert LegalSeq(loop.body, within);
    assert Legal(loop.body[0], {}, within);
  }

  /** The machine runs like its part of the list, with captured branches. */
  lemma {:induction false} SimCluster(ctx: Ctx, env: Env, items: seq<Item>, idx: nat, n: nat, ts: JState)
    requires idx < |items| && Ready(ctx, env, LabelsIn(items), n) && SaneIn(items, ctx.hasResult)
    requires ChunkAt(items, idx).Cluster? && OneCluster(items)
    requires FaithfulRange(FlowOf(ctx), items, idx, ChunkAt(items, idx).end)
    requires LowerChunk(ctx, items, idx, n).ok && LegalSeq(LowerChunk(ctx, items, idx, n).code, env)
    ensures var c := ChunkAt(items, idx);
      Follows(ctx, n, ts, CaptRun(items, Machine(idx, c.first, c.end), FlowOf(ctx), idx, ts.user),
              Onward(items, c.end + 1),
              JRun(LowerChunk(ctx, items, idx, n).code, ts))
    decreases Size(items), 1, |items| + 2
  {
    hide LowerFrom, ClusterTable, RegionFine, Ready, Size, LabelsIn, LegalSeq, Dispatches, ClusterCode, ClusterRel,
         Follows, CaptRun, SaneIn;
    var first, end := ChunkAt(items, idx).first, ChunkAt(items, idx).end;
    var t := ClusterTable(ctx, items, idx, first, end, n);
    RangeFine(ctx, items, idx, end);
    TableStart(ctx, items, idx, first, end, n);
    forall k | 0 <= k < |t.cases|
      ensures LegalSeq(t.cases[k].body, Inside(env, GotoLoop(n)))
    {
      ClusterLegal(n, t.values, t.cases, env, k);
    }
    forall at: Counter, x: JState | ClusterRel(items, idx, first, end, n, ts, at, x)
      ensures Dispatches(ctx, n, items, idx, first, end, t.values, t.cases, ts, at.pc, x)
    {
      SimDispatch(ctx, env, items, idx, first, end, n, ts, at, x);
    }
    ClusterLoopFollows(ctx, n, items, idx, first, end, t.values, t.cases, ts);
  }

  lemma {:induction false} RangeFine(ctx: Ctx, items: seq<Item>, start: nat, end: nat)
    requires end < |items| && SaneIn(items, ctx.hasResult) && FaithfulRange(FlowOf(ctx), items, start, end)
    ensures RegionFine(ctx, items, start, end)
  {
    hide Faithful, FaithfulRange;
    forall k | start <= k <= end
      ensures Faithful(FlowOf(ctx), items[k].stmt)
    {
      FaithfulRangeAt(FlowOf(ctx), items, start, end, k);
    }
  }

  lemma {:induction false} SimDispatch(ctx: Ctx, env: Env, items: seq<Item>, start: nat, first: nat, end: nat, n: nat,
                                       ts: JState, at: Counter, x: JState)
    requires start <= first == FirstTarget(items, 0) <= end < |items| && items[first].lab.Some?
    requires Ready(ctx, env, LabelsIn(items), n) && RegionFine(ctx, items, start, end)
    requires var t := ClusterTable(ctx, items, start, first, end, n);
      t.ok && forall k :: 0 <= k < |t.cases| ==> LegalSeq(t.cases[k].body, Inside(env, GotoLoop(n)))
    requires ClusterRel(items, start, first, end, n, ts, at, x)
    ensures var t := ClusterTable(ctx, items, start, first, end, n);
      Dispatches(ctx, n, items, start, first, end, t.values, t.cases, ts, at.pc, x)
    decreases Size(items), 1, |items| + 1
  {
    hide LowerFrom, LowerSegments, RegionFine, Ready, Size, LabelsIn, CaseOk, LegalSeq;
    assert Distinct(LabelsIn(items)) by { ReadyDistinct(ctx, env, LabelsIn(items), n); }
    var inner, t := StateCtx(ctx, items, first, end, n), ClusterTable(ctx, items, start, first, end, n);
    if start < first {
      var b := LowerFrom(inner, items[start..first], 0, n + 1);
      if at.pc < first {
        assert t.cases[0].body == b.code + CaseTail(n, items, first, end);
        SimEntry(ctx, env, items, start, first, end, n, ts, x);
      } else {
        TableTail(ctx, items, start, first, end, n, Str(items[at.pc].lab.value));
        SimSegments(ctx, env, items, start, first, end, first, n, b.next, ts, at.pc, x);
      }
    } else {
      SimSegments(ctx, env, items, start, first, end, first, n, n + 1, ts, at.pc, x);
    }
  }

  lemma {:induction false} TableTail(ctx: Ctx, items: seq<Item>, start: nat, first: nat, end: nat, n: nat, v: Val)
    requires start < first <= end < |items| && items[first].lab.Some? && v != Str(ENTRY)
    ensures var inner := StateCtx(ctx, items, first, end, n);
      var b := LowerFrom(inner, items[start..first], 0, n + 1);
      var t, rest := ClusterTable(ctx, items, start, first, end, n), LowerSegments(inner, items, first, end, n, b.next);
      && FirstCase(t.values, v, 0) == 1 + FirstCase(rest.values, v, 0)
      && |t.cases| == 1 + |rest.cases|
      && (forall k :: 0 <= k < |rest.cases| ==> t.cases[k + 1] == rest.cases[k])
      && (t.ok ==> rest.ok)
  {
    var inner := StateCtx(ctx, items, first, end, n);
    var b := LowerFrom(inner, items[start..first], 0, n + 1);
    var rest := LowerSegments(inner, items, first, end, n, b.next);
    FirstCaseShift(ENTRY, rest.values, v, 0);
  }

  /** The loop starts in the state of the statement lowering stands at. */
  lemma {:induction false} TableStart(ctx: Ctx, items: seq<Item>, start: nat, first: nat, end: nat, n: nat)
    requires start <= first <= end < |items| && items[first].lab.Some?
    ensures StateNames(items, start, first, end, n, start,
                       map[GotoState(n) := Str(ClusterTable(ctx, items, start, first, end, n).values[0])])
  {
  }

  // ----- labelled loops -----

  /** The statements of the loop for the label at `p` are faithful. */
  ghost predicate LoopFine(ctx: Ctx, items: seq<Item>, p: nat, end: nat)
  {
    p <= end < |items| && SaneIn(items, ctx.hasResult) && FaithfulLoop(FlowOf(ctx), items, p, end)
  }

  lemma {:induction false} LoopLegal(l: Label, body: seq<JS>, env: Env)
    requires LegalSeq(LoopCode(l, body), env)
    ensures LegalSeq(body, Inside(env, Src(l)))
  {
    var code := LoopCode(l, body);
    assert Legal(code[0], {}, env);
    assert Legal(code[0].stmt, {} + {Src(l)}, env.(breaks := env.breaks + {Src(l)}));
    assert env.continues + ({} + {Src(l)}) == Inside(env, Src(l)).continues;
    LegalConcat(body, [JBreak], Inside(env, Src(l)));
  }

  /** The pieces of a loop: its labelled statement and what lies behind up to its end. */
  lemma {:induction false} LoopPieces(ctx: Ctx, env: Env, items: seq<Item>, p: nat, end: nat, l: Label, n: nat, m: nat)
    requires p <= end < |items| && items[p].lab == Some(l) && BackwardLabelAt(items, p) && n <= m
    requires Ready(ctx, env, LabelsIn(items), n) && LoopFine(ctx, items, p, end)
    ensures var inner, within, seg := BackwardCtx(ctx, items), Inside(env, Src(l)), items[p + 1..end + 1];
      Ready(inner, within, LabelsOf(items[p].stmt), m) && Ready(inner, within, LabelsIn(seg), m) &&
      Fine(items[p].stmt, inner) && FineFrom(seg, 0, inner)
  {
    LoopParts(ctx, items, p, end);
    LoopLabels(items, p, end, l);
    LoopReady(ctx, env, items, l, n, m, LabelsOf(items[p].stmt));
    LoopReady(ctx, env, items, l, n, m, LabelsIn(items[p + 1..end + 1]));
  }

  lemma {:induction false} LoopParts(ctx: Ctx, items: seq<Item>, p: nat, end: nat)
    requires LoopFine(ctx, items, p, end)
    ensures Fine(items[p].stmt, BackwardCtx(ctx, items)) && FineFrom(items[p + 1..end + 1], 0, BackwardCtx(ctx, items))
  {
    hide SaneIn, Faithful, FaithfulFrom;
    assert FlowOf(BackwardCtx(ctx, items)) == FlowOf(ctx);
    SaneAt(items, p, ctx.hasResult);
    SliceLabels(items, p + 1, end + 1);
    SanePart(items, p + 1, items[p + 1..end + 1], ctx.hasResult);
  }

  lemma {:induction false} LoopLabels(items: seq<Item>, p: nat, end: nat, l: Label)
    requires p <= end < |items| && items[p].lab == Some(l) && Distinct(LabelsIn(items))
    ensures l in LabelsIn(items) && l !in LabelsOf(items[p].stmt) && l !in LabelsIn(items[p + 1..end + 1])
    ensures LabelsOf(items[p].stmt) <= LabelsIn(items) && LabelsIn(items[p + 1..end + 1]) <= LabelsIn(items)
  {
    LabelOnce(items, p, p, l);
    SliceLabels(items, p + 1, end + 1);
    if l in LabelsIn(items[p + 1..end + 1]) { PieceLabel(items, p + 1, items[p + 1..end + 1], p, l); }
    LabelsAt(items, p);
  }

  lemma {:induction false} LoopReady(ctx: Ctx, env: Env, items: seq<Item>, l: Label, n: nat, m: nat,
                                     labels: multiset<Label>)
    requires Ready(ctx, env, LabelsIn(items), n) && labels <= LabelsIn(items) && l !in labels && l in LabelsIn(items)
    requires n <= m
    ensures Ready(BackwardCtx(ctx, items), Inside(env, Src(l)), labels, m)
  {
    DistinctBelow(labels, LabelsIn(items));
  }

  /** The added loop runs like its part of the list, with captured branches. */
  lemma {:induction false} SimBackward(ctx: Ctx, env: Env, items: seq<Item>, idx: nat, end: nat, n: nat, ts: JState)
    requires idx <= end < |items| && Ready(ctx, env, LabelsIn(items), n) && LoopFine(ctx, items, idx, end)
    requires ChunkAt(items, idx) == Backward(end) && BackwardLabelAt(items, idx)
    requires LowerBackward(ctx, items, idx, end, n).ok && LegalSeq(LowerBackward(ctx, items, idx, end, n).code, env)
    ensures Follows(ctx, n, ts, CaptRun(items, Labelled(idx, end), FlowOf(ctx), idx, ts.user), Onward(items, end + 1),
                    JRun(LowerBackward(ctx, items, idx, end, n).code, ts))
    decreases Size(items), 1, 0
  {
    hide LoopFine, Ready, LabelsIn, LegalSeq, Follows, CaptRun, PassOk, BodyFollows, ChunkAt, BackwardLabelAt;
    var l, inner := items[idx].lab.value, BackwardCtx(ctx, items);
    SizeAt(items, idx);
    PartSize(items, idx + 1, end + 1);
    var a := LowerStmt(inner, items[idx].stmt, n);
    var b := LowerFrom(inner, items[idx + 1..end + 1], 0, a.next);
    var body := a.code + b.code + [JBreak];
    var entry := (pc: nat, vars: map<Name, Val>) => pc == idx;
    LoopLegal(l, a.code + b.code, env);
    forall at: Counter, x: JState | LoopRel(n, ts, entry, at, x)
      ensures PassOk(ctx, n, items, idx, end, l, at.pc, x, JRun(body, x))
    {
      SimPass(ctx, env, items, idx, end, l, n, x);
    }
    LoopFollows(ctx, n, items, idx, end, l, idx, body, entry, ts);
    RunOne(LoopCode(l, a.code + b.code)[0], ts);
  }

  lemma {:induction false} SimPass(ctx: Ctx, env: Env, items: seq<Item>, p: nat, end: nat, l: Label, n: nat, x: JState)
    requires p <= end < |items| && items[p].lab == Some(l) && BackwardLabelAt(items, p)
    requires Ready(ctx, env, LabelsIn(items), n) && LoopFine(ctx, items, p, end)
    requires var inner := BackwardCtx(ctx, items);
      var a := LowerStmt(inner, items[p].stmt, n);
      var b := LowerFrom(inner, items[p + 1..end + 1], 0, a.next);
      a.ok && b.ok && LegalSeq(a.code + b.code, Inside(env, Src(l)))
    ensures var inner := BackwardCtx(ctx, items);
      var a := LowerStmt(inner, items[p].stmt, n);
      var b := LowerFrom(inner, items[p + 1..end + 1], 0, a.next);
      PassOk(ctx, n, items, p, end, l, p, x, JRun(a.code + b.code + [JBreak], x))
    decreases Size(items), 0, 1
  {
    hide LowerFrom, LowerStmt, SaneIn, FaithfulLoop, Ready, Size, LabelsIn, LegalSeq, PassOk, Follows, BodyFollows;
    var inner := BackwardCtx(ctx, items);
    SizeAt(items, p);
    PartSize(items, p + 1, end + 1);
    var a := LowerStmt(inner, items[p].stmt, n);
    var b := LowerFrom(inner, items[p + 1..end + 1], 0, a.next);
    LegalConcat(a.code, b.code, Inside(env, Src(l)));
    SimFirst(ctx, env, items, p, end, l, n, n, x);
    SimRest(ctx, env, items, p, end, l, n, a.next);
    PassFollows(ctx, env, items, p, end, l, n, a.next, a.code, b.code, x);
  }

  lemma {:induction false} SimFirst(ctx: Ctx, env: Env, items: seq<Item>, p: nat, end: nat, l: Label, n: nat, m: nat,
                                    x: JState)
    requires p <= end < |items| && items[p].lab == Some(l) && BackwardLabelAt(items, p) && n <= m
    requires Ready(ctx, env, LabelsIn(items), n) && LoopFine(ctx, items, p, end)
    requires var a := LowerStmt(BackwardCtx(ctx, items), items[p].stmt, m);
      a.ok && LegalSeq(a.code, Inside(env, Src(l)))
    ensures Follows(BackwardCtx(ctx, items), m, x, Exec(items[p].stmt, None, x.user), Ends(),
                    JRun(LowerStmt(BackwardCtx(ctx, items), items[p].stmt, m).code, x))
    decreases Size(items), 0, 0
  {
    hide LowerStmt, SaneIn, LoopFine, Ready, LabelsIn, LegalSeq, Follows;
    SizeAt(items, p);
    LoopPieces(ctx, env, items, p, end, l, n, m);
    SimStmt(BackwardCtx(ctx, items), Inside(env, Src(l)), items[p].stmt, None, m, x);
  }

  lemma {:induction false} SimRest(ctx: Ctx, env: Env, items: seq<Item>, p: nat, end: nat, l: Label, n: nat, m: nat)
    requires p <= end < |items| && items[p].lab == Some(l) && BackwardLabelAt(items, p) && n <= m
    requires Ready(ctx, env, LabelsIn(items), n) && LoopFine(ctx, items, p, end)
    requires var b := LowerFrom(BackwardCtx(ctx, items), items[p + 1..end + 1], 0, m);
      b.ok && LegalSeq(b.code, Inside(env, Src(l)))
    ensures BodyFollows(BackwardCtx(ctx, items), m, items[p + 1..end + 1],
                        LowerFrom(BackwardCtx(ctx, items), items[p + 1..end + 1], 0, m).code)
    decreases Size(items), 0, 0
  {
    hide LowerFrom, SaneIn, LoopFine, Ready, LabelsIn, LegalSeq, BodyFollows;
    PartSize(items, p + 1, end + 1);
    LoopPieces(ctx, env, items, p, end, l, n, m);
    SimBody(BackwardCtx(ctx, items), Inside(env, Src(l)), items[p + 1..end + 1], m);
  }

  /** A goto to the label behind the loop's first statement skips exactly that statement. */
  lemma {:induction false} LeadingJumps(items: seq<Item>, idx: nat, st: Store)
    requires idx < |items| && SkipsAt(items, idx) && Distinct(LabelsIn(items))
    ensures RunFrom(items, idx, st) == RunFrom(items, idx + 2, st)
  {
    PositionOf(items, idx + 2, items[idx].stmt.lab);
    RunUnfold(items, idx, st);
  }

  function LeadingFirst(n: nat, first: seq<JS>): seq<JS>
  {
    [JIfVar(Skip(n), false, first), JSet(Skip(n), Bool(false))]
  }

  lemma {:induction false} FirstNotSkipped(ctx: Ctx, n: nat, m: nat, src: Outcome, first: seq<JS>, x: JState)
    requires n < m && Lookup(x.vars, Skip(n)) == Bool(false)
    requires Follows(ctx, m, x, src, Ends(), JRun(first, x))
    ensures Follows(ctx, n, x, src, Ends(), JRun(LeadingFirst(n, first), x))
    ensures var r, q := JRun(LeadingFirst(n, first), x), JRun(first, x);
      if q.JDone? && q.comp == JNormal then r == JDone(JNormal, q.ts.(vars := q.ts.vars[Skip(n) := Bool(false)]))
      else r == q
  {
    var code, r := LeadingFirst(n, first), JRun(first, x);
    assert JExec(code[0], {}, x) == r;
    assert code[1..] == [JSet(Skip(n), Bool(false))];
    if r.JDone? && r.comp == JNormal { RunOne(code[1], r.ts); }
  }

  lemma {:induction false} FirstSkipped(n: nat, first: seq<JS>, rest: seq<JS>, x: JState)
    requires Lookup(x.vars, Skip(n)) == Bool(true)
    ensures JRun(LeadingFirst(n, first) + rest, x) == JRun(rest, x.(vars := x.vars[Skip(n) := Bool(false)]))
  {
    var code := LeadingFirst(n, first);
    JRunConcat(code, rest, x);
    assert JExec(code[0], {}, x) == JDone(JNormal, x);
    assert code[1..] == [JSet(Skip(n), Bool(false))];
    RunOne(code[1], x);
  }

  lemma {:induction false} SamePass(ctx: Ctx, n: nat, items: seq<Item>, p: nat, end: nat, l: Label, pc: nat, x: JState,
                                    y: JState, r: JOutcome)
    requires x.user == y.user && Kept(n, x.vars, y.vars, {}) && PassOk(ctx, n, items, p, end, l, pc, y, r)
    ensures PassOk(ctx, n, items, p, end, l, pc, x, r)
  {
    if r.JDone? {
      if GoesBack(l, r) || r.comp == JBroke || r.comp == JBrokeTo(Src(l)) {
        KeptTwice(n, n, x.vars, y.vars, r.ts.vars, {});
      } else {
        KeptTwice(n, n, x.vars, y.vars, r.ts.vars,
                  Touched(ctx, CaptRun(items, Labelled(p, end), FlowOf(ctx), pc, x.user).comp));
      }
    }
  }

  /** A variable that a completed pass does not touch: a goto back to the label touches none. */
  lemma {:induction false} SkipStays(ctx: Ctx, n: nat, m: nat, src: Outcome, code: seq<JS>, l: Label, x: JState)
    requires n < m && Follows(ctx, m, x, src, Ends(), JRun(code, x))
    ensures var r := JRun(code + [JBreak], x);
      GoesBack(l, r) || (r.JDone? && r.comp == JNormal) ==> Lookup(r.ts.vars, Skip(n)) == Lookup(x.vars, Skip(n))
    ensures var r := JRun(code, x);
      GoesBack(l, r) || (r.JDone? && r.comp == JNormal) ==> Lookup(r.ts.vars, Skip(n)) == Lookup(x.vars, Skip(n))
  {
    BreakBehind(code, x);
    assert Below(Skip(n), m);
    var r := JRun(code, x);
    if GoesBack(l, r) { assert Touched(ctx, src.comp) == {}; }
  }

  ghost predicate LeadingEntry(n: nat, p: nat, pc: nat, vars: map<Name, Val>)
  {
    (pc == p && Lookup(vars, Skip(n)) == Bool(false)) || (pc == p + 1 && Lookup(vars, Skip(n)) == Bool(true))
  }

  /** One pass of the loop with the skip flag. */
  lemma {:induction false} LeadingPass(ctx: Ctx, env: Env, items: seq<Item>, p: nat, end: nat, l: Label, n: nat, m: nat,
                    first: seq<JS>, code: seq<JS>, pc: nat, x: JState)
    requires p <= end < |items| && items[p].lab == Some(l) && BackwardLabelAt(items, p)
    requires Ready(ctx, env, LabelsIn(items), n) && SaneIn(items, ctx.hasResult) && n < m
    requires Follows(BackwardCtx(ctx, items), n + 1, x, Exec(items[p].stmt, None, x.user), Ends(), JRun(first, x))
    requires LegalSeq(first, Inside(env, Src(l)))
    requires BodyFollows(BackwardCtx(ctx, items), m, items[p + 1..end + 1], code) && LegalSeq(code, Inside(env, Src(l)))
    requires LeadingEntry(n, p, pc, x.vars)
    ensures var r := JRun(LeadingFirst(n, first) + code + [JBreak], x);
      PassOk(ctx, n, items, p, end, l, pc, x, r) && (GoesBack(l, r) ==> LeadingEntry(n, p, p, r.ts.vars))
  {
    hide SaneIn, LoopFine, Ready, LabelsIn, PassOk, Follows, BackwardLabelAt, Legal, LegalSeq, RunFrom, BackwardLabels,
         Exec, JRun, LeadingFirst;
    var inner, seg := BackwardCtx(ctx, items), items[p + 1..end + 1];
    var whole := LeadingFirst(n, first) + code + [JBreak];
    assert whole == LeadingFirst(n, first) + (code + [JBreak]);
    if pc == p {
      FirstNotSkipped(inner, n, n + 1, Exec(items[p].stmt, None, x.user), first, x);
      LegalFirst(n, first, Inside(env, Src(l)));
      PassFollows(ctx, env, items, p, end, l, n, m, LeadingFirst(n, first), code, x);
      SkipStays(inner, n, n + 1, Exec(items[p].stmt, None, x.user), first, l, x);
      JRunConcat(LeadingFirst(n, first), code + [JBreak], x);
      var q := JRun(LeadingFirst(n, first), x);
      if q.JDone? && q.comp == JNormal {
        assert Follows(inner, m, q.ts, RunFrom(seg, 0, q.ts.user), Ends(), JRun(code, q.ts));
        SkipStays(inner, n, m, RunFrom(seg, 0, q.ts.user), code, l, q.ts);
      }
    } else {
      var y := x.(vars := x.vars[Skip(n) := Bool(false)]);
      FirstSkipped(n, first, code + [JBreak], x);
      RestFollows(ctx, env, items, p, end, l, n, m, p + 1, code, y);
      SamePass(ctx, n, items, p, end, l, p + 1, x, y, JRun(code + [JBreak], y));
      assert Follows(inner, m, y, RunFrom(seg, 0, y.user), Ends(), JRun(code, y));
      SkipStays(inner, n, m, RunFrom(seg, 0, y.user), code, l, y);
    }
  }

  lemma {:induction false} LegalFirst(n: nat, first: seq<JS>, env: Env)
    ensures LegalSeq(LeadingFirst(n, first), env) <==> LegalSeq(first, env)
  {
    var code := LeadingFirst(n, first);
    if LegalSeq(code, env) { assert Legal(code[0], {}, env); }
  }

  /** With the skip flag the loop runs like the list from the statement behind its first one on,
      whatever label the goto in front of it names, with captured branches. */
  lemma {:induction false} SimLeading(ctx: Ctx, env: Env, items: seq<Item>, idx: nat, end: nat, n: nat, ts: JState)
    requires idx + 1 <= end < |items| && Ready(ctx, env, LabelsIn(items), n) && LoopFine(ctx, items, idx + 1, end)
    requires LeadingAt(items, idx) && ChunkAt(items, idx) == Leading(end)
    requires LowerLeading(ctx, items, idx, end, n).ok && LegalSeq(LowerLeading(ctx, items, idx, end, n).code, env)
    ensures Follows(ctx, n, ts, CaptRun(items, Labelled(idx + 1, end), FlowOf(ctx), idx + 2, ts.user),
                    Onward(items, end + 1),
                    JRun(LowerLeading(ctx, items, idx, end, n).code, ts))
    decreases Size(items), 1, 0
  {
    hide LowerFrom, LowerStmt, ChunkAt, SaneIn, Ready, LabelsIn, PassOk, BodyFollows, Size, Follows, Legal, CaptRun;
    var p, l, inner := idx + 1, items[idx + 1].lab.value, BackwardCtx(ctx, items);
    SizeAt(items, p);
    PartSize(items, p + 1, end + 1);
    var a := LowerStmt(inner, items[p].stmt, n + 1);
    var b := LowerFrom(inner, items[p + 1..end + 1], 0, a.next);
    var body := LeadingFirst(n, a.code) + b.code + [JBreak];
    var loop := LoopCode(l, LeadingFirst(n, a.code) + b.code);
    LegalConcat([JSet(Skip(n), Bool(true))], loop, env);
    LoopLegal(l, LeadingFirst(n, a.code) + b.code, env);
    LegalConcat(LeadingFirst(n, a.code), b.code, Inside(env, Src(l)));
    LegalFirst(n, a.code, Inside(env, Src(l)));
    SimRest(ctx, env, items, p, end, l, n, a.next);
    var t1 := ts.(vars := ts.vars[Skip(n) := Bool(true)]);
    var entry := (pc: nat, vars: map<Name, Val>) => LeadingEntry(n, p, pc, vars);
    forall at: Counter, x: JState | LoopRel(n, t1, entry, at, x)
      ensures PassOk(ctx, n, items, p, end, l, at.pc, x, JRun(body, x))
      ensures GoesBack(l, JRun(body, x)) ==> entry(p, JRun(body, x).ts.vars)
    {
      SimFirst(ctx, env, items, p, end, l, n, n + 1, x);
      LeadingPass(ctx, env, items, p, end, l, n, a.next, a.code, b.code, at.pc, x);
    }
    LoopFollows(ctx, n, items, p, end, l, p + 1, body, entry, t1);
    SetThen(ctx, n, items, p, end, ts, loop[0]);
  }

  lemma {:induction false} SetThen(ctx: Ctx, n: nat, items: seq<Item>, p: nat, end: nat, ts: JState, loop: JS)
    requires var t1 := ts.(vars := ts.vars[Skip(n) := Bool(true)]);
      Follows(ctx, n, t1, CaptRun(items, Labelled(p, end), FlowOf(ctx), p + 1, t1.user), Onward(items, end + 1),
              JExec(loop, {}, t1))
    ensures Follows(ctx, n, ts, CaptRun(items, Labelled(p, end), FlowOf(ctx), p + 1, ts.user), Onward(items, end + 1),
                    JRun([JSet(Skip(n), Bool(true))] + [loop], ts))
  {
    var t1 := ts.(vars := ts.vars[Skip(n) := Bool(true)]);
    var code := [JSet(Skip(n), Bool(true))] + [loop];
    RunOne(loop, t1);
    assert code[1..] == [loop];
    assert JExec(code[0], {}, ts) == JDone(JNormal, t1);
  }

  // ----- nested labelled blocks -----

  /** A piece of the list inside the blocks of the labels from `q` on declares none of them. */
  lemma {:induction false} GroupReady(ctx: Ctx, env: Env, items: seq<Item>, start: nat, last: nat, n: nat, m: nat,
                                      a: nat, q: nat, seg: seq<Item>)
    requires Ready(ctx, env, LabelsIn(items), n) && n <= m
    requires Part(items, a, seg) && LabelsIn(seg) <= LabelsIn(items)
    requires forall k :: 0 <= k < |seg| && seg[k].lab.Some? ==> !InGroup(items, start, last, a + k)
    ensures Ready(GroupCtx(ctx, items, start, last), GroupEnv(env, items, start, last, q), LabelsIn(seg), m)
  {
    hide LabelsIn, Part;
    ReadyWithin(ctx, env, LabelsIn(items), n, LabelsIn(seg), m);
    forall p | 0 <= p < |items| && InGroup(items, start, last, p)
      ensures items[p].lab.value !in LabelsIn(seg) &&
        (ctx.state.Some? ==> items[p].lab.value !in ctx.state.value.labels)
    {
      GroupLabelOutside(ctx, env, items, start, last, n, a, seg, p);
    }
  }

  lemma {:induction false} GroupLabelOutside(ctx: Ctx, env: Env, items: seq<Item>, start: nat, last: nat, n: nat,
                                             a: nat, seg: seq<Item>, p: nat)
    requires Ready(ctx, env, LabelsIn(items), n) && Part(items, a, seg)
    requires forall k :: 0 <= k < |seg| && seg[k].lab.Some? ==> !InGroup(items, start, last, a + k)
    requires InGroup(items, start, last, p)
    ensures items[p].lab.value !in LabelsIn(seg) && (ctx.state.Some? ==> items[p].lab.value !in ctx.state.value.labels)
  {
    hide LabelsIn;
    var l := items[p].lab.value;
    LabelOnce(items, p, p, l);
    if l in LabelsIn(seg) { PieceLabel(items, a, seg, p, l); }
  }

  /** A piece of the list inside the blocks follows the list. */
  lemma {:induction false} SimGroupPiece(ctx: Ctx, env: Env, items: seq<Item>, start: nat, last: nat, n: nat, m: nat,
                                         a: nat, q: nat, seg: seq<Item>, x: JState)
    requires Ready(ctx, env, LabelsIn(items), n) && SaneIn(items, ctx.hasResult) && n <= m
    requires a < q <= |items| && (seg == items[a..q] || seg == Segment(items, a, q))
    requires FaithfulFrom(FlowOf(ctx), seg, 0) && Size(seg) < Size(items)
    requires forall k :: 0 <= k < |seg| && seg[k].lab.Some? ==> !InGroup(items, start, last, a + k)
    requires var b := LowerFrom(GroupCtx(ctx, items, start, last), seg, 0, m);
      b.ok && LegalSeq(b.code, GroupEnv(env, items, start, last, q))
    ensures var code := LowerFrom(GroupCtx(ctx, items, start, last), seg, 0, m).code;
      GroupOk(ctx, n, items, GroupLabels(items, start, last), a, q, x, JRun(code, x))
    decreases Size(items), 0, 0
  {
    hide LowerFrom, Ready, SaneIn, LabelsIn, Legal, GroupOk, Follows, Carries, RunsAs, Part, Size, FaithfulFrom,
         InGroup, Segment;
    var inner, within := GroupCtx(ctx, items, start, last), GroupEnv(env, items, start, last, q);
    var code := LowerFrom(inner, seg, 0, m).code;
    if seg == items[a..q] { SliceLabels(items, a, q); } else { SegmentLabels(items, a, q); }
    GroupReady(ctx, env, items, start, last, n, m, a, q, seg);
    SanePart(items, a, seg, ctx.hasResult);
    assert FlowOf(inner) == FlowOf(ctx);
    SimBody(inner, within, seg, m);
    PieceAlike(ctx, env, items, start, last, n, m, a, q, seg, code);
    PieceRuns(items, a, seg, x.user);
    LegalSeqLands(code, within, x);
    NoGroupBranch(ctx, env, items, start, last, n, m, a, q, seg, x, JRun(code, x));
    GroupPiece(ctx, env, items, start, last, n, m, a, q - a, RunFrom(seg, 0, x.user), JRun(code, x), x);
  }

  /** The label in front of a piece makes no difference to it: its block is not open. */
  lemma {:induction false} PieceAlike(ctx: Ctx, env: Env, items: seq<Item>, start: nat, last: nat, n: nat, m: nat,
                                      a: nat, q: nat, seg: seq<Item>, code: seq<JS>)
    requires Ready(ctx, env, LabelsIn(items), n) && SaneIn(items, ctx.hasResult)
    requires a < q <= |items| && (seg == items[a..q] || seg == Segment(items, a, q))
    requires BodyFollows(GroupCtx(ctx, items, start, last), m, seg, code)
    requires LegalSeq(code, GroupEnv(env, items, start, last, q))
    ensures RunsAs(items, a, seg)
  {
    hide LabelsIn, LegalSeq, BodyFollows, RunsAs, GroupEnv, InGroup;
    ReadyDistinct(ctx, env, LabelsIn(items), n);
    if seg == items[a..q] {
      SliceRunsAs(items, a, q);
    } else {
      SaneAt(items, a, ctx.hasResult);
      if items[a].lab.Some? {
        OnlyLater(ctx, env, items, start, last, n, q, a);
        CodeOwnFree(GroupCtx(ctx, items, start, last), m, seg, code, GroupEnv(env, items, start, last, q),
                    items[a].lab.value);
      }
      SegmentRunsAs(items, a, q);
    }
  }

  /** A piece is not left by a break to a label of the group: only the statement of its first label
      could hold one, and the block of that label is not open. */
  lemma {:induction false} NoGroupBranch(ctx: Ctx, env: Env, items: seq<Item>, start: nat, last: nat, n: nat, m: nat,
                                         a: nat, q: nat, seg: seq<Item>, x: JState, r: JOutcome)
    requires Ready(ctx, env, LabelsIn(items), n) && SaneIn(items, ctx.hasResult) && Part(items, a, seg) && a < q
    requires forall k :: 0 <= k < |seg| && seg[k].lab.Some? ==> !InGroup(items, start, last, a + k)
    requires Follows(GroupCtx(ctx, items, start, last), m, x, RunFrom(seg, 0, x.user), Ends(), r)
    requires Lands(r, {}, GroupEnv(env, items, start, last, q))
    ensures var src := RunFrom(seg, 0, x.user);
      src.Done? && src.comp.BrokeTo? ==> src.comp.lab !in GroupLabels(items, start, last)
  {
    hide LabelsIn, ForwardStart, RunFrom, BranchesTo;
    var src := RunFrom(seg, 0, x.user);
    if src.Done? && src.comp.BrokeTo? && src.comp.lab in GroupLabels(items, start, last) {
      var l := src.comp.lab;
      var t :| 0 <= t < |items| && InGroup(items, start, last, t) && items[t].lab.value == l;
      SanePart(items, a, seg, ctx.hasResult);
      RunExits(seg, 0, x.user, ctx.hasResult);
      var k :| 0 <= k < |seg| && ItemBranchesTo(seg[k], l);
      SaneAt(items, a + k, ctx.hasResult);
      assert t == a + k;
      OnlyLater(ctx, env, items, start, last, n, q, t);
    }
  }

  /** Among the blocks from `q` on there is none for a label in front of `q`. */
  lemma {:induction false} OnlyLater(ctx: Ctx, env: Env, items: seq<Item>, start: nat, last: nat, n: nat, q: nat,
                                     t: nat)
    requires Ready(ctx, env, LabelsIn(items), n) && t < q && t < |items| && items[t].lab.Some?
    ensures var within := GroupEnv(env, items, start, last, q);
      Src(items[t].lab.value) !in within.breaks && Src(items[t].lab.value) !in within.continues
  {
    hide LabelsIn, ForwardStart;
    var l := items[t].lab.value;
    LabelOnce(items, t, t, l);
    if k :| q <= k < |items| && InGroup(items, start, last, k) && items[k].lab.value == l { LabelOnce(items, k, t, l); }
  }

  lemma {:induction false} NestSegment(items: seq<Item>, start: nat, last: nat, p: nat, q: nat)
    requires p < q <= |items| && items[p].lab.Some? && forall k :: p < k < q ==> !InGroup(items, start, last, k)
    ensures var seg := Segment(items, p, q);
      Size(seg) < Size(items) && forall k :: 0 <= k < |seg| && seg[k].lab.Some? ==> !InGroup(items, start, last, p + k)
  {
    hide InGroup, Size;
    SegmentSize(items, p, q);
  }

  lemma {:induction false} SimNest(ctx: Ctx, env: Env, items: seq<Item>, start: nat, last: nat, p: nat, before: seq<JS>,
                                   n: nat, m: nat, ts: JState)
    requires p <= last < |items| && InGroup(items, start, last, p) && InGroup(items, start, last, last)
    requires GroupClosed(items, start, last)
    requires Ready(ctx, env, LabelsIn(items), n) && SaneIn(items, ctx.hasResult)
    requires FaithfulNest(FlowOf(ctx), items, start, last, p) && n <= m
    requires var r := NestBlocks(GroupCtx(ctx, items, start, last), items, start, last, p, before, m);
      r.ok && LegalSeq(r.code, env)
    requires GroupOk(ctx, n, items, GroupLabels(items, start, last), start, p, ts, JRun(before, ts))
    ensures GroupOk(ctx, n, items, GroupLabels(items, start, last), start, last, ts,
                    JRun(NestBlocks(GroupCtx(ctx, items, start, last), items, start, last, p, before, m).code, ts))
    decreases Size(items), 1, |items| - p
  {
    hide LowerFrom, Ready, SaneIn, LabelsIn, Legal, LegalSeq, GroupOk, RunsAs, Part, Size, GroupClosed, FaithfulFrom,
         JRun, ForwardStart;
    var inner, group, l := GroupCtx(ctx, items, start, last), GroupLabels(items, start, last), items[p].lab.value;
    var block := [JLabeled(Src(l), JBlock(before))];
    ReadyDistinct(ctx, env, LabelsIn(items), n);
    GroupBlock(ctx, n, items, group, start, p, l, ts, before);
    if p < last {
      var q := NextInGroup(items, start, last, p + 1);
      var seg := Segment(items, p, q);
      SegmentSize(items, p, q);
      var a := LowerFrom(inner, seg, 0, m);
      NestSegment(items, start, last, p, q);
      NestLegal(inner, env, items, start, last, q, block + a.code, a.next);
      LegalConcat(block, a.code, GroupEnv(env, items, start, last, q));
      var r := JRun(block, ts);
      if r.JDone? && r.comp == JNormal {
        SimGroupPiece(ctx, env, items, start, last, n, m, p, q, seg, r.ts);
      }
      GroupThen(ctx, n, items, group, start, p, q, ts, block, a.code);
      SimNest(ctx, env, items, start, last, q, block + a.code, n, a.next, ts);
    }
  }

  /** At the end of the group no break to one of its labels is left. */
  lemma {:induction false} GroupEnds(ctx: Ctx, env: Env, items: seq<Item>, start: nat, last: nat, n: nat, code: seq<JS>,
                                     ts: JState)
    requires Ready(ctx, env, LabelsIn(items), n) && LegalSeq(code, env)
    requires GroupOk(ctx, n, items, GroupLabels(items, start, last), start, last, ts, JRun(code, ts))
    ensures Follows(ctx, n, ts, RunFrom(items, start, ts.user), Onward(items, last), JRun(code, ts))
  {
    LegalSeqLands(code, env, ts);
    var r := JRun(code, ts);
    if r.JDone? && r.comp.JBrokeTo? && r.comp.l.Src? && r.comp.l.lab in GroupLabels(items, start, last) {
      var l := r.comp.l.lab;
      LabelOnce(items, IndexOf(items, l), IndexOf(items, l), l);
    }
  }

  lemma {:induction false} SimGroup(ctx: Ctx, env: Env, items: seq<Item>, idx: nat, last: nat, n: nat, ts: JState)
    requires idx < last < |items| && InGroup(items, idx, last, last) && GroupClosed(items, idx, last)
    requires Ready(ctx, env, LabelsIn(items), n) && SaneIn(items, ctx.hasResult)
    requires FaithfulGroup(FlowOf(ctx), items, idx, last)
    requires LowerGroup(ctx, items, idx, last, n).ok && LegalSeq(LowerGroup(ctx, items, idx, last, n).code, env)
    ensures Follows(ctx, n, ts, RunFrom(items, idx, ts.user), Onward(items, last + 1),
                    JRun(LowerGroup(ctx, items, idx, last, n).code, ts))
    decreases Size(items), 1, |items| + 1
  {
    hide LowerFrom, LowerStmt, NestBlocks, Ready, SaneIn, LabelsIn, Legal, LegalSeq, GroupOk, RunsAs, Part, Size,
         GroupClosed, FaithfulFrom, Follows;
    var inner := GroupCtx(ctx, items, idx, last);
    var p := NextInGroup(items, idx, last, idx + 1);
    PartSize(items, idx, p);
    SizeAt(items, last);
    var a := LowerFrom(inner, items[idx..p], 0, n);
    var b := NestBlocks(inner, items, idx, last, p, a.code, a.next);
    var c := LowerStmt(ctx, items[last].stmt, b.next);
    LegalConcat(b.code, c.code, env);
    SimGroupHead(ctx, env, items, idx, last, p, n, ts);
    SimNest(ctx, env, items, idx, last, p, a.code, n, a.next, ts);
    GroupEnds(ctx, env, items, idx, last, n, b.code, ts);
    var r := JRun(b.code, ts);
    if r.JDone? && r.comp == JNormal {
      SimGroupLast(ctx, env, items, idx, last, n, b.next, r.ts);
    }
    FollowsThen(ctx, n, n, ts, RunFrom(items, idx, ts.user), Onward(items, last), Onward(items, last + 1), b.code,
                c.code);
  }

  /** The statements in front of the first label of the group. */
  lemma {:induction false} SimGroupHead(ctx: Ctx, env: Env, items: seq<Item>, idx: nat, last: nat, p: nat, n: nat,
                                        ts: JState)
    requires idx < p <= last < |items| && InGroup(items, idx, last, p) && InGroup(items, idx, last, last)
    requires GroupClosed(items, idx, last)
    requires forall k :: idx < k < p ==> !InGroup(items, idx, last, k)
    requires Ready(ctx, env, LabelsIn(items), n) && SaneIn(items, ctx.hasResult)
    requires FaithfulFrom(FlowOf(ctx), items[idx..p], 0)
    requires var inner := GroupCtx(ctx, items, idx, last); var a := LowerFrom(inner, items[idx..p], 0, n);
      a.ok && LegalSeq(NestBlocks(inner, items, idx, last, p, a.code, a.next).code, env)
    ensures GroupOk(ctx, n, items, GroupLabels(items, idx, last), idx, p, ts,
                    JRun(LowerFrom(GroupCtx(ctx, items, idx, last), items[idx..p], 0, n).code, ts))
    decreases Size(items), 0, 1
  {
    hide LowerFrom, NestBlocks, Ready, SaneIn, LabelsIn, Legal, LegalSeq, GroupOk, RunsAs, Size, GroupClosed,
         FaithfulFrom;
    var inner, seg := GroupCtx(ctx, items, idx, last), items[idx..p];
    var a := LowerFrom(inner, seg, 0, n);
    ReadyDistinct(ctx, env, LabelsIn(items), n);
    NestLegal(inner, env, items, idx, last, p, a.code, a.next);
    PartSize(items, idx, p);
    SimGroupPiece(ctx, env, items, idx, last, n, n, idx, p, seg, ts);
  }

  lemma {:induction false} LandsOwnFree(ctx: Ctx, env: Env, n: nat, src: Outcome, r: JOutcome, l: Label, x: JState)
    requires Follows(ctx, n, x, src, Ends(), r) && Lands(r, {}, env) && Src(l) !in env.breaks
    requires Src(l) !in env.continues
    ensures OwnFree(src, l)
  {
  }

  /** The statement of the last label, behind all blocks. */
  lemma {:induction false} SimGroupLast(ctx: Ctx, env: Env, items: seq<Item>, idx: nat, last: nat, n: nat, m: nat,
                                        x: JState)
    requires last < |items| && InGroup(items, idx, last, last) && n <= m
    requires Ready(ctx, env, LabelsIn(items), n) && SaneIn(items, ctx.hasResult)
    requires Faithful(FlowOf(ctx), items[last].stmt)
    requires var c := LowerStmt(ctx, items[last].stmt, m); c.ok && LegalSeq(c.code, env)
    ensures Follows(ctx, n, x, RunFrom(items, last, x.user), Onward(items, last + 1),
                    JRun(LowerStmt(ctx, items[last].stmt, m).code, x))
    decreases Size(items), 0, 0
  {
    hide LowerStmt, Follows, Size, Legal, LegalSeq;
    var s, l := items[last].stmt, items[last].lab.value;
    SizeAt(items, last);
    LabelsAt(items, last);
    SaneAt(items, last, ctx.hasResult);
    ReadyWithin(ctx, env, LabelsIn(items), n, LabelsOf(s), m);
    SimStmt(ctx, env, s, None, m, x);
    LabelOnce(items, last, last, l);
    LegalSeqLands(LowerStmt(ctx, s, m).code, env, x);
    LandsOwnFree(ctx, env, m, Exec(s, None, x.user), JRun(LowerStmt(ctx, s, m).code, x), l, x);
    OwnLabelIrrelevant(s, l, x.user);
    assert items[last] == Item(Some(l), s);
    ItemStep(ctx, env, items, last, n, m, Exec(s, None, x.user), LowerStmt(ctx, s, m).code, x);
  }
}
