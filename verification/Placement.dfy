/** Lowering gives neither a diagnostic nor an early error (sections 14.8.1, 14.9.1 and 14.13.1 of
    ECMA-262) exactly when every branch and goto is in scope. */
module Placement {
  import opened GoSource
  import opened JsTarget
  import opened GotoAnalysis
  import opened Lowering
  import opened SourceChecks
  import opened Sublists
  import opened Simulation
  import opened Constructs
  import opened Regions
  import opened LoweringProof
  import opened Scopes

  /** No diagnostic and no early error. */
  predicate Good(low: Low, env: Env)
  {
    low.ok && LegalSeq(low.code, env)
  }

  // ----- the scope describes the context and the environment -----

  predicate MachineOpen(ctx: Ctx, env: Env, l: Label)
  {
    ctx.state.Some? && l in ctx.state.value.labels && GotoLoop(ctx.state.value.id) in env.continues
  }

  predicate LabelOpen(ctx: Ctx, env: Env, l: Label)
  {
    if l in ctx.forwardGotos then Src(l) in env.breaks else l in ctx.gotoLabels && Src(l) in env.continues
  }

  ghost predicate BranchesExact(env: Env, sc: Scope)
  {
    forall l :: (Src(l) in env.breaks <==> l in sc.breaks) && (Src(l) in env.continues <==> l in sc.loops)
  }

  ghost predicate GotosExact(ctx: Ctx, env: Env, sc: Scope, gotos: seq<Label>)
  {
    forall l :: l in gotos ==>
      (MachineOpen(ctx, env, l) <==> l in sc.machine) && (LabelOpen(ctx, env, l) <==> l in sc.open)
  }

  ghost predicate PlainExact(ctx: Ctx, env: Env, sc: Scope)
  {
    && (sc.breakable <==> Legal(BreakStmt(ctx), {}, env))
    && (sc.loop <==> Legal(ContinueStmt(ctx), {}, env))
    && (ctx.loopLabel.Some? ==>
        LoopName(ctx.loopLabel.value) in env.breaks && LoopName(ctx.loopLabel.value) in env.continues)
  }

  /** For the given gotos, the scope says exactly what the emitted branches find. */
  ghost predicate Exact(ctx: Ctx, env: Env, sc: Scope, gotos: seq<Label>)
  {
    BranchesExact(env, sc) && PlainExact(ctx, env, sc) && GotosExact(ctx, env, sc, gotos)
  }

  lemma {:induction false} ExactFor(ctx: Ctx, env: Env, sc: Scope, gotos: seq<Label>, inner: seq<Label>)
    requires Exact(ctx, env, sc, gotos) && forall l :: l in inner ==> l in gotos
    ensures Exact(ctx, env, sc, inner)
  {
  }

  lemma {:induction false} ForExactCtx(ctx: Ctx, env: Env, sc: Scope, gotos: seq<Label>, own: Option<Label>,
                                       named: bool, n: nat)
    requires Exact(ctx, env, sc, gotos) && (own.Some? ==> own.value !in gotos)
    ensures Exact(ForCtx(ctx, named, n), ForEnv(env, own, named, n),
                  sc.(loops := sc.loops + OwnLabels(own), breakable := true, loop := true), gotos)
  {
  }

  lemma {:induction false} ClauseExactCtx(ctx: Ctx, env: Env, sc: Scope, gotos: seq<Label>)
    requires Exact(ctx, env, sc, gotos)
    ensures Exact(ClauseCtx(ctx), env.(breakable := true), sc.(breakable := true), gotos)
  {
  }

  lemma {:induction false} CallbackExact(ctx: Ctx, n: nat, gotos: seq<Label>)
    ensures Exact(RangeCtx(ctx, n), OUTSIDE, CALLBACK, gotos)
  {
  }

  lemma {:induction false} LabelExact(ctx: Ctx, env: Env, sc: Scope, gotos: seq<Label>, l: Label)
    requires Exact(ctx, env, sc, gotos) && l !in gotos
    ensures Exact(ctx, env.(breaks := env.breaks + {Src(l)}), sc.(breaks := sc.breaks + {l}), gotos)
  {
  }

  lemma {:induction false} MachineExact(ctx: Ctx, env: Env, sc: Scope, gotos: seq<Label>, items: seq<Item>, first: nat,
                                        end: nat, n: nat)
    requires Exact(ctx, env, sc, gotos)
    ensures Exact(StateCtx(ctx, items, first, end, n), Inside(env, GotoLoop(n)),
                  InMachine(sc, LabelsBetween(items, first, end)), gotos)
  {
  }

  lemma {:induction false} LoopExact(ctx: Ctx, env: Env, sc: Scope, gotos: seq<Label>, items: seq<Item>, p: nat, n: nat)
    requires Exact(ctx, env, sc, gotos) && Ready(ctx, env, LabelsIn(items), n) && BackwardLabelAt(items, p)
    ensures Exact(BackwardCtx(ctx, items), Inside(env, Src(items[p].lab.value)), InLoop(sc, items[p].lab.value), gotos)
  {
    hide LabelsIn, BackwardEnd;
    var l0 := items[p].lab.value;
    var inner, within, sc1 := BackwardCtx(ctx, items), Inside(env, Src(l0)), InLoop(sc, l0);
    assert l0 in BackwardLabels(items);
    forall l | l in BackwardLabels(items)
      ensures l !in ctx.forwardGotos && Src(l) !in env.breaks && Src(l) !in env.continues
    {
      var q :| 0 <= q < |items| && BackwardLabelAt(items, q) && items[q].lab.value == l;
      LabelOnce(items, q, q, l);
    }
    forall l | l in gotos
      ensures (MachineOpen(inner, within, l) <==> l in sc1.machine) && (LabelOpen(inner, within, l) <==> l in sc1.open)
    {
      assert MachineOpen(inner, within, l) <==> MachineOpen(ctx, env, l);
    }
  }

  /** Inside the blocks of the labels from `q` on every goto to the group finds its block. */
  lemma {:induction false} BlocksExact(ctx: Ctx, env: Env, sc: Scope, items: seq<Item>, start: nat, last: nat, n: nat,
                                       a: nat, seg: seq<Item>)
    requires Exact(ctx, env, sc, GotosIn(items)) && Ready(ctx, env, LabelsIn(items), n) && Part(items, a, seg)
    requires forall k :: 0 <= k < |seg| && seg[k].lab.Some? ==> !InGroup(items, start, last, a + k)
    ensures Exact(GroupCtx(ctx, items, start, last), GroupEnv(env, items, start, last, a + |seg|),
                  InBlocks(sc, items, start, last, a + |seg|), GotosIn(seg))
  {
    hide GotosIn, GotosOf, ForwardStart, LabelsIn, Ready, GroupEnv, InGroup, GroupLabels;
    var group, q := GroupLabels(items, start, last), a + |seg|;
    var inner, within, sc1 := GroupCtx(ctx, items, start, last), GroupEnv(env, items, start, last, q),
        InBlocks(sc, items, start, last, q);
    GotosOfPart(items, a, seg);
    GroupNames(ctx, env, items, start, last, n, q);
    forall l | l in GotosIn(seg)
      ensures (MachineOpen(inner, within, l) <==> l in sc1.machine) && (LabelOpen(inner, within, l) <==> l in sc1.open)
    {
      if l in group { BlockFound(items, start, last, a, seg, env, l); }
    }
  }

  /** The blocks open labels of the group and no others, and these are new. */
  lemma {:induction false} GroupNames(ctx: Ctx, env: Env, items: seq<Item>, start: nat, last: nat, n: nat, q: nat)
    requires Ready(ctx, env, LabelsIn(items), n)
    ensures forall l :: l in GroupLabels(items, start, last) ==>
      l !in ctx.forwardGotos && Src(l) !in env.breaks && Src(l) !in env.continues
    ensures var within := GroupEnv(env, items, start, last, q);
      env.breaks <= within.breaks && env.continues == within.continues && env.breakable == within.breakable &&
      env.loop == within.loop
    ensures forall l :: Src(l) in GroupEnv(env, items, start, last, q).breaks <==>
      Src(l) in env.breaks || l in BlocksFrom(items, start, last, q)
    ensures BlocksFrom(items, start, last, q) <= GroupLabels(items, start, last)
  {
    hide LabelsIn, ForwardStart;
    forall l | l in GroupLabels(items, start, last)
      ensures l !in ctx.forwardGotos && Src(l) !in env.breaks && Src(l) !in env.continues
    {
      var p :| 0 <= p < |items| && InGroup(items, start, last, p) && items[p].lab.value == l;
      LabelOnce(items, p, p, l);
    }
  }

  lemma {:induction false} BlockFound(items: seq<Item>, start: nat, last: nat, a: nat, seg: seq<Item>, env: Env,
                                      l: Label)
    requires Part(items, a, seg) && l in GotosIn(seg) && l in GroupLabels(items, start, last)
    requires forall k :: 0 <= k < |seg| && seg[k].lab.Some? ==> !InGroup(items, start, last, a + k)
    ensures Src(l) in GroupEnv(env, items, start, last, a + |seg|).breaks
  {
    hide GotosOf, GotosIn;
    GotosInAt(seg, l);
    var g :| 0 <= g < |seg| && l in GotosOf(seg[g].stmt);
    var t :| 0 <= t < |items| && InGroup(items, start, last, t) && items[t].lab.value == l;
    assert GotoAt(items, a + g, l);
    GroupAhead(items, start, last, t, a + g);
    if t < a + |seg| { BehindFirst(items, start, last, a, seg, t); }
  }

  /** The gotos of a group jump forwards. */
  lemma {:induction false} GroupAhead(items: seq<Item>, start: nat, last: nat, t: nat, g: nat)
    requires InGroup(items, start, last, t) && GotoAt(items, g, items[t].lab.value)
    ensures g < t
  {
    hide BackwardLabelAt, BackwardEnd, GotosOf;
    assert !BackwardLabelAt(items, t);
    if t <= g { TargetIsBackward(items, t, g); }
  }

  lemma {:induction false} BehindFirst(items: seq<Item>, start: nat, last: nat, a: nat, seg: seq<Item>, t: nat)
    requires Part(items, a, seg) && a < t < a + |seg|
    requires forall k :: 0 <= k < |seg| && seg[k].lab.Some? ==> !InGroup(items, start, last, a + k)
    ensures !InGroup(items, start, last, t)
  {
    assert seg[t - a].lab == items[a + (t - a)].lab;
  }

  // ----- statements -----

  lemma {:induction false} StmtExact(ctx: Ctx, env: Env, s: Stmt, own: Option<Label>, n: nat, sc: Scope)
    requires Ready(ctx, env, LabelsOf(s), n) && Exact(ctx, env, sc, GotosOf(s))
    requires s.For? ==> own.None?
    ensures Good(LowerStmt(ctx, s, n), env) <==> Scoped(s, own, sc)
    decreases StmtSize(s), 1, 0
  {
    hide LowerFrom, LowerClauses, Ready, LabelsIn, ScopedFrom, GotosIn, Size, Distinct, Exact, Legal, LegalSeq,
         BranchesTo;
    match s
    case Block(body) => BlockExact(ctx, env, s, n, sc);
    case If(_, thn, els) => IfExact(ctx, env, s, n, sc);
    case For(_, _, _, _, _) =>
      ForExact(ctx, env, s, None, n, sc);
      LegalOne(LowerStmt(ctx, s, n).code[0], env);
    case Switch(_, clauses) => SwitchExact(ctx, env, s, n, sc);
    case RangeFunc(_, _, body) => RangeExact(ctx, env, s, n, sc);
    case _ => LeafExact(ctx, env, s, own, n, sc);
  }

  lemma {:induction false} BlockExact(ctx: Ctx, env: Env, s: Stmt, n: nat, sc: Scope)
    requires s.Block? && Ready(ctx, env, LabelsOf(s), n) && Exact(ctx, env, sc, GotosOf(s))
    ensures Good(LowerStmt(ctx, s, n), env) <==> ScopedFrom(s.body, 0, sc)
    decreases StmtSize(s), 0, 0
  {
    hide LowerFrom, Ready, LabelsIn, ScopedFrom, GotosIn, Size, Exact, LegalSeq;
    LegalOne(LowerStmt(ctx, s, n).code[0], env);
    FromExact(ctx, env, s.body, 0, n, sc);
  }

  lemma {:induction false} IfExact(ctx: Ctx, env: Env, s: Stmt, n: nat, sc: Scope)
    requires s.If? && Ready(ctx, env, LabelsOf(s), n) && Exact(ctx, env, sc, GotosOf(s))
    ensures Good(LowerStmt(ctx, s, n), env) <==> ScopedFrom(s.thn, 0, sc) && ScopedFrom(s.els, 0, sc)
    decreases StmtSize(s), 0, 0
  {
    hide LowerFrom, Ready, LabelsIn, ScopedFrom, GotosIn, Size, Exact, LegalSeq;
    var a := LowerFrom(ctx, s.thn, 0, n);
    LegalOne(LowerStmt(ctx, s, n).code[0], env);
    ExactFor(ctx, env, sc, GotosOf(s), GotosIn(s.thn));
    ExactFor(ctx, env, sc, GotosOf(s), GotosIn(s.els));
    ReadyWithin(ctx, env, LabelsOf(s), n, LabelsIn(s.thn), n);
    ReadyWithin(ctx, env, LabelsOf(s), n, LabelsIn(s.els), a.next);
    FromExact(ctx, env, s.thn, 0, n, sc);
    FromExact(ctx, env, s.els, 0, a.next, sc);
  }

  /** A for loop, with the label in front of it if there is one. */
  lemma {:induction false} ForExact(ctx: Ctx, env: Env, s: Stmt, own: Option<Label>, n: nat, sc: Scope)
    requires s.For? && Ready(ctx, env, LabelsOf(s), n) && Exact(ctx, env, sc, GotosOf(s))
    requires own.Some? ==>
      own.value !in GotosOf(s) && own.value !in LabelsOf(s) &&
      (ctx.state.Some? ==> own.value !in ctx.state.value.labels)
    ensures var low := LowerStmt(ctx, s, n); low.ok && Legal(low.code[0], OwnNames(own), env) <==> Scoped(s, own, sc)
    decreases StmtSize(s), 0, 0
  {
    hide LowerFrom, Ready, LabelsIn, ScopedFrom, GotosIn, Size, Exact, LegalSeq;
    var named := !s.ranged && NeedsLoopLabel(s.body);
    var body := LowerFrom(ForCtx(ctx, named, n), s.body, 0, n + 1);
    ForExactCtx(ctx, env, sc, GotosOf(s), own, named, n);
    ForReady(ctx, env, LabelsOf(s), own, named, n);
    FromExact(ForCtx(ctx, named, n), ForEnv(env, own, named, n), s.body, 0, n + 1,
              sc.(loops := sc.loops + OwnLabels(own), breakable := true, loop := true));
    NewName(ctx, env, LabelsOf(s), n, LoopName(n));
    LoopLegalExactly(s, body.code, env, own, named, n);
  }

  lemma {:induction false} NewName(ctx: Ctx, env: Env, labels: multiset<Label>, n: nat, x: Name)
    requires Ready(ctx, env, labels, n) && !x.Src? && x.id == n
    ensures x !in env.breaks
  {
  }

  lemma {:induction false} LoopLegalExactly(s: Stmt, body: seq<JS>, env: Env, own: Option<Label>, named: bool, n: nat)
    requires s.For? && LoopName(n) !in env.breaks
    ensures var loop := JLoop(s.init, s.cond, s.post, body);
      Legal(if named then JLabeled(LoopName(n), loop) else loop, OwnNames(own), env) <==>
        LegalSeq(body, ForEnv(env, own, named, n))
  {
    var loop := JLoop(s.init, s.cond, s.post, body);
    if named {
      assert Legal(JLabeled(LoopName(n), loop), OwnNames(own), env) <==>
        Legal(loop, OwnNames(own) + {LoopName(n)}, env.(breaks := env.breaks + {LoopName(n)}));
    } else {
      assert OwnNames(own) + {} == OwnNames(own) && env.breaks + {} == env.breaks;
    }
  }

  lemma {:induction false} SwitchExact(ctx: Ctx, env: Env, s: Stmt, n: nat, sc: Scope)
    requires s.Switch? && Ready(ctx, env, LabelsOf(s), n) && Exact(ctx, env, sc, GotosOf(s))
    ensures Good(LowerStmt(ctx, s, n), env) <==> ScopedClauses(s.clauses, sc.(breakable := true))
    decreases StmtSize(s), 0, 0
  {
    hide LowerClauses, Ready, LabelsInClauses, ScopedClauses, GotosInClauses, ClausesSize, Exact, LegalSeq;
    var cases := LowerClauses(ClauseCtx(ctx), s.clauses, n).0;
    LegalOne(LowerStmt(ctx, s, n).code[0], env);
    ClauseExactCtx(ctx, env, sc, GotosOf(s));
    ClauseReady(ctx, env, LabelsOf(s), n);
    ClausesExact(ClauseCtx(ctx), env.(breakable := true), s.clauses, n, sc.(breakable := true));
  }

  lemma {:induction false} ClauseReady(ctx: Ctx, env: Env, labels: multiset<Label>, n: nat)
    requires Ready(ctx, env, labels, n)
    ensures Ready(ClauseCtx(ctx), env.(breakable := true), labels, n)
  {
  }

  lemma {:induction false} ClausesExact(ctx: Ctx, env: Env, clauses: seq<Clause>, n: nat, sc: Scope)
    requires Ready(ctx, env, LabelsInClauses(clauses), n) && Exact(ctx, env, sc, GotosInClauses(clauses))
    requires env.breakable
    ensures var (cases, _, ok) := LowerClauses(ctx, clauses, n);
      ok && (forall k :: 0 <= k < |cases| ==> LegalSeq(cases[k].body, env)) <==> ScopedClauses(clauses, sc)
    decreases ClausesSize(clauses), 0, 0
  {
    hide LowerFrom, Ready, LabelsIn, ScopedFrom, GotosIn, Size, Exact, LegalSeq;
    if clauses != [] {
      var body := clauses[0].body;
      var b := LowerFrom(ctx, body, 0, n);
      var cases, rest := LowerClauses(ctx, clauses, n).0, LowerClauses(ctx, clauses[1..], b.next).0;
      assert cases[1..] == rest && (forall k :: 0 <= k < |rest| ==> rest[k] == cases[k + 1]);
      ExactFor(ctx, env, sc, GotosInClauses(clauses), GotosIn(body));
      ExactFor(ctx, env, sc, GotosInClauses(clauses), GotosInClauses(clauses[1..]));
      ReadyWithin(ctx, env, LabelsInClauses(clauses), n, LabelsIn(body), n);
      ReadyWithin(ctx, env, LabelsInClauses(clauses), n, LabelsInClauses(clauses[1..]), b.next);
      FromExact(ctx, env, body, 0, n, sc);
      CaseLegal(b.code, clauses[0].fallsThrough, env);
      ClausesExact(ctx, env, clauses[1..], b.next, sc);
      FirstAndRest(cases, env);
    }
  }

  lemma {:induction false} FirstAndRest(cases: seq<JCase>, env: Env)
    requires cases != []
    ensures (forall k :: 0 <= k < |cases| ==> LegalSeq(cases[k].body, env)) <==>
      LegalSeq(cases[0].body, env) && forall k :: 0 <= k < |cases[1..]| ==> LegalSeq(cases[1..][k].body, env)
  {
    hide LegalSeq;
    assert forall k :: 0 < k < |cases| ==> cases[k] == cases[1..][k - 1];
  }

  lemma {:induction false} CaseLegal(code: seq<JS>, fallsThrough: bool, env: Env)
    requires env.breakable
    ensures LegalSeq(code + (if fallsThrough then [] else [JBreak]), env) <==> LegalSeq(code, env)
  {
    LegalConcat(code, if fallsThrough then [] else [JBreak], env);
  }

  lemma {:induction false} RangeExact(ctx: Ctx, env: Env, s: Stmt, n: nat, sc: Scope)
    requires s.RangeFunc? && Ready(ctx, env, LabelsOf(s), n)
    ensures Good(LowerStmt(ctx, s, n), env) <==> ScopedFrom(s.body, 0, CALLBACK)
    decreases StmtSize(s), 0, 0
  {
    hide LowerFrom, Ready, LabelsIn, ScopedFrom, GotosIn, Size, Exact, LegalSeq;
    var b := LowerFrom(RangeCtx(ctx, n), s.body, 0, n + 1);
    CallbackExact(ctx, n, GotosIn(s.body));
    RangeReady(ctx, env, LabelsOf(s), n);
    FromExact(RangeCtx(ctx, n), OUTSIDE, s.body, 0, n + 1, CALLBACK);
    CallLegal(ctx, env, s, b.code, n);
  }

  lemma {:induction false} CallLegal(ctx: Ctx, env: Env, s: Stmt, body: seq<JS>, n: nat)
    requires s.RangeFunc?
    ensures LegalSeq(RangeCode(ctx, s.it, s.bind, body, n), env) <==> LegalSeq(body, OUTSIDE)
  {
    if LegalSeq(RangeCode(ctx, s.it, s.bind, body, n), env) { RangeLegal(ctx, env, s, body, n); }
    if LegalSeq(body, OUTSIDE) { MakeCall(ctx, env, s, body, n); }
  }

  lemma {:induction false} MakeCall(ctx: Ctx, env: Env, s: Stmt, body: seq<JS>, n: nat)
    requires s.RangeFunc? && LegalSeq(body, OUTSIDE)
    ensures LegalSeq(RangeCode(ctx, s.it, s.bind, body, n), env)
  {
    LegalConcat(body, [JReturn(RetBool(true))], OUTSIDE);
    assert forall k :: 0 <= k < |RangeReturnCode(ctx, n)| ==> Legal(RangeReturnCode(ctx, n)[k], {}, env);
  }

  /** Statements without a body. */
  lemma {:induction false} LeafExact(ctx: Ctx, env: Env, s: Stmt, own: Option<Label>, n: nat, sc: Scope)
    requires !s.Block? && !s.If? && !s.For? && !s.Switch? && !s.RangeFunc?
    requires Ready(ctx, env, LabelsOf(s), n) && Exact(ctx, env, sc, GotosOf(s))
    ensures Good(LowerStmt(ctx, s, n), env) <==> Scoped(s, own, sc)
  {
    hide LabelsOf;
    var low := LowerStmt(ctx, s, n);
    if s.Goto? {
      GotoExact(ctx, env, s.lab, n, sc);
    } else if s.Return? {
      assert forall k :: 0 <= k < |low.code| ==> Legal(low.code[k], {}, env);
    } else if low.code != [] {
      LegalOne(low.code[0], env);
    }
  }

  lemma {:induction false} GotoExact(ctx: Ctx, env: Env, l: Label, n: nat, sc: Scope)
    requires (MachineOpen(ctx, env, l) <==> l in sc.machine) && (LabelOpen(ctx, env, l) <==> l in sc.open)
    requires ctx.state.Some? && l in ctx.state.value.labels ==> Src(l) !in env.breaks && Src(l) !in env.continues
    ensures Good(GotoStmts(ctx, l, n), env) <==> l in sc.machine || l in sc.open
  {
    var code := GotoStmts(ctx, l, n).code;
    if ctx.state.Some? && l in ctx.state.value.labels {
      assert Legal(code[0], {}, env);
      assert LegalSeq(code, env) <==> Legal(code[1], {}, env);
    } else if code != [] {
      LegalOne(code[0], env);
    }
  }

  // ----- labelled statements -----

  lemma {:induction false} ItemExact(ctx: Ctx, env: Env, it: Item, n: nat, sc: Scope)
    requires Ready(ctx, env, ItemLabels(it), n) && Exact(ctx, env, sc, GotosOf(it.stmt))
    requires it.lab.Some? ==> it.lab.value !in GotosOf(it.stmt)
    ensures Good(LowerItem(ctx, it, n), env) <==> ScopedItem(it, sc)
    decreases StmtSize(it.stmt), 2, 0
  {
    hide LowerFrom, LowerStmt, Ready, LabelsOf, Scoped, Exact, Legal, LegalSeq;
    var s := it.stmt;
    if it.lab.None? {
      ReadyWithin(ctx, env, ItemLabels(it), n, LabelsOf(s), n);
      assert sc.(breaks := sc.breaks + OwnLabels(None)) == sc;
      StmtExact(ctx, env, s, None, n, sc);
    } else {
      var l := it.lab.value;
      var within := env.(breaks := env.breaks + {Src(l)});
      LabelReady(ctx, env, it, n);
      LabelExact(ctx, env, sc, GotosOf(s), l);
      if s.For? {
        ForExact(ctx, within, s, it.lab, n, sc.(breaks := sc.breaks + {l}));
        ForLabelLegal(ctx, env, it, n);
      } else {
        StmtExact(ctx, within, s, it.lab, n, sc.(breaks := sc.breaks + {l}));
        LabelLegal(ctx, env, it, n);
      }
    }
  }

  lemma {:induction false} ForLabelLegal(ctx: Ctx, env: Env, it: Item, n: nat)
    requires it.lab.Some? && it.stmt.For? && Src(it.lab.value) !in env.breaks
    ensures LegalSeq(LowerItem(ctx, it, n).code, env) <==>
      Legal(LowerStmt(ctx, it.stmt, n).code[0], OwnNames(it.lab), env.(breaks := env.breaks + {Src(it.lab.value)}))
  {
    hide LowerFrom;
    var a, l := LowerStmt(ctx, it.stmt, n).code, it.lab.value;
    assert LowerItem(ctx, it, n).code == [JLabeled(Src(l), a[0])];
    LegalOne(JLabeled(Src(l), a[0]), env);
    assert {} + {Src(l)} == OwnNames(it.lab);
  }

  /** The label in front of the emitted statements makes no other branch legal. */
  lemma {:induction false} LabelLegal(ctx: Ctx, env: Env, it: Item, n: nat)
    requires it.lab.Some? && !it.stmt.For? && Src(it.lab.value) !in env.breaks
    ensures LegalSeq(LowerItem(ctx, it, n).code, env) <==>
      LegalSeq(LowerStmt(ctx, it.stmt, n).code, env.(breaks := env.breaks + {Src(it.lab.value)}))
  {
    hide LowerFrom, LowerClauses;
    var s, a, l := it.stmt, LowerStmt(ctx, it.stmt, n).code, it.lab.value;
    var within := env.(breaks := env.breaks + {Src(l)});
    if RendersAsBlock(s) {
      var whole := JLabeled(Src(l), JBlock(a));
      LegalOne(whole, env);
      assert Legal(whole, {}, env) <==> Legal(JBlock(a), {} + {Src(l)}, within);
    } else if a != [] {
      var code := LowerItem(ctx, it, n).code;
      assert code == [JLabeled(Src(l), a[0])] + a[1..];
      assert Legal(code[0], {}, env) <==> Legal(a[0], {}, within) by { PartLegal(a[0], Src(l), env); }
      RestLegal(ctx, s, n, env, within);
      LegalConcat([JLabeled(Src(l), a[0])], a[1..], env);
      LegalConcat([a[0]], a[1..], within);
      assert a == [a[0]] + a[1..];
      LegalOne(code[0], env);
      LegalOne(a[0], within);
    }
  }

  lemma {:induction false} PartLegal(a: JS, l: Name, env: Env)
    requires !a.JLabeled? && !a.JLoop? && l !in env.breaks
    ensures Legal(JLabeled(l, a), {}, env) <==> Legal(a, {}, env.(breaks := env.breaks + {l}))
  {
    assert Legal(JLabeled(l, a), {}, env) <==> Legal(a, {} + {l}, env.(breaks := env.breaks + {l}));
  }

  /** What follows the first part of a goto or a return names no source label. */
  lemma {:induction false} RestLegal(ctx: Ctx, s: Stmt, n: nat, env: Env, within: Env)
    requires LowerStmt(ctx, s, n).code != [] && !RendersAsBlock(s) && !s.For? && env.continues == within.continues
    ensures LegalSeq(LowerStmt(ctx, s, n).code[1..], env) <==> LegalSeq(LowerStmt(ctx, s, n).code[1..], within)
  {
    hide LowerFrom, LowerClauses;
    var rest := LowerStmt(ctx, s, n).code[1..];
    if s.Goto? || s.Return? {
      assert forall k :: 0 <= k < |rest| ==> (Legal(rest[k], {}, env) <==> Legal(rest[k], {}, within));
    } else {
      assert rest == [];
    }
  }

  // ----- lists -----

  lemma {:induction false} FromExact(ctx: Ctx, env: Env, items: seq<Item>, idx: nat, n: nat, sc: Scope)
    requires Ready(ctx, env, LabelsIn(items), n) && Exact(ctx, env, sc, GotosIn(items))
    requires idx > 0 ==> Standing(items, idx)
    ensures Good(LowerFrom(ctx, items, idx, n), env) <==> ScopedFrom(items, idx, sc)
    decreases Size(items), 3, if idx < |items| then |items| - idx else 0
  {
    hide LowerChunk, ChunkAt, ScopedChunk, Ready, Exact, GotosIn, Size, LabelsIn, LegalSeq;
    if idx < |items| {
      StartStanding(items);
      ReadyDistinct(ctx, env, LabelsIn(items), n);
      var a, next := LowerChunk(ctx, items, idx, n), NextIdx(ChunkAt(items, idx), idx);
      ChunkExact(ctx, env, items, idx, n, sc);
      StandingNext(items, idx);
      ReadyWithin(ctx, env, LabelsIn(items), n, LabelsIn(items), a.next);
      FromExact(ctx, env, items, next, a.next, sc);
      LegalConcat(a.code, LowerFrom(ctx, items, next, a.next).code, env);
    } else {
      NothingLegal(env);
    }
  }

  lemma {:induction false} NothingLegal(env: Env)
    ensures LegalSeq([], env)
  {
  }

  lemma {:induction false} StartStanding(items: seq<Item>)
    ensures Standing(items, 0)
  {
  }

  lemma {:induction false} ChunkExact(ctx: Ctx, env: Env, items: seq<Item>, idx: nat, n: nat, sc: Scope)
    requires idx < |items| && Ready(ctx, env, LabelsIn(items), n) && Exact(ctx, env, sc, GotosIn(items))
    requires Standing(items, idx)
    ensures Good(LowerChunk(ctx, items, idx, n), env) <==> ScopedChunk(items, idx, sc)
    decreases Size(items), 2, 0
  {
    hide ChunkAt, LowerItem, LowerCluster, LowerGroup, LowerBackward, LowerLeading, ScopedItem, ScopedRange, ScopedLoop,
         ScopedGroup, Ready, Exact, GotosIn, Size, LabelsIn, LegalSeq, LeadingAt, BackwardLabelAt;
    ReadyDistinct(ctx, env, LabelsIn(items), n);
    ChunkKind(items, idx);
    match ChunkAt(items, idx)
    case Plain => PlainChunkExact(ctx, env, items, idx, n, sc);
    case Cluster(first, end) => ClusterExact(ctx, env, items, idx, n, sc);
    case Leading(end) => LeadingExact(ctx, env, items, idx, end, n, sc);
    case Group(last) => GroupExact(ctx, env, items, idx, last, n, sc);
    case Backward(end) => BackwardExact(ctx, env, items, idx, end, n, sc);
  }

  lemma {:induction false} PlainChunkExact(ctx: Ctx, env: Env, items: seq<Item>, idx: nat, n: nat, sc: Scope)
    requires idx < |items| && Ready(ctx, env, LabelsIn(items), n) && Exact(ctx, env, sc, GotosIn(items))
    requires ChunkAt(items, idx).Plain?
    ensures Good(LowerItem(ctx, items[idx], n), env) <==> ScopedItem(items[idx], sc)
    decreases Size(items), 1, 0
  {
    hide LowerItem, ScopedItem, Ready, Exact, GotosIn, LabelsIn;
    var it := items[idx];
    SizeAt(items, idx);
    LabelsAt(items, idx);
    ReadyWithin(ctx, env, LabelsIn(items), n, ItemLabels(it), n);
    GotosOfItem(items, idx);
    ExactFor(ctx, env, sc, GotosIn(items), GotosOf(it.stmt));
    if it.lab.Some? { PlainNoSelf(items, idx); }
    ItemExact(ctx, env, it, n, sc);
  }

  lemma {:induction false} PlainNoSelf(items: seq<Item>, idx: nat)
    requires idx < |items| && ChunkAt(items, idx).Plain? && items[idx].lab.Some?
    ensures items[idx].lab.value !in GotosOf(items[idx].stmt)
  {
    if items[idx].lab.value in GotosOf(items[idx].stmt) {
      TargetIsBackward(items, idx, idx);
      assert false;
    }
  }

  // ----- state machines -----

  /** A piece of the list inside the dispatch. */
  lemma {:induction false} MachinePiece(ctx: Ctx, env: Env, items: seq<Item>, first: nat, end: nat, n: nat, m: nat,
                                        a: nat, seg: seq<Item>, sc: Scope)
    requires first == FirstTarget(items, 0) <= end < |items| && n < m && |seg| > 0
    requires Ready(ctx, env, LabelsIn(items), n) && Exact(ctx, env, sc, GotosIn(items))
    requires Part(items, a, seg) && LabelsIn(seg) <= LabelsIn(items) && Bare(seg, a, first) && Size(seg) < Size(items)
    requires forall i :: 0 <= i < |seg| ==> if a + i < first then seg[i] == items[a + i] else seg[i].lab.None?
    ensures Good(LowerFrom(StateCtx(ctx, items, first, end, n), seg, 0, m), Inside(env, GotoLoop(n))) <==>
      ScopedRange(items, a, first, a + |seg| - 1, InMachine(sc, LabelsBetween(items, first, end)))
    decreases Size(items), 0, 0
  {
    hide LowerFrom, Ready, LabelsIn, Exact, GotosIn, ScopedFrom, ScopedRange, Size, LegalSeq;
    var inner, within, sc1 := StateCtx(ctx, items, first, end, n), Inside(env, GotoLoop(n)),
        InMachine(sc, LabelsBetween(items, first, end));
    SegmentReady(ctx, env, items, first, end, n, m, a, seg);
    SegmentNoOwn(items, a, seg);
    GotosOfPart(items, a, seg);
    MachineExact(ctx, env, sc, GotosIn(items), items, first, end, n);
    ExactFor(inner, within, sc1, GotosIn(items), GotosIn(seg));
    FromExact(inner, within, seg, 0, m, sc1);
    PieceRange(items, a, seg, 0, first, sc1);
  }

  lemma {:induction false} TailLegal(n: nat, items: seq<Item>, next: nat, end: nat, code: seq<JS>, env: Env)
    requires end < |items| && (next <= end ==> items[next].lab.Some?)
    ensures LegalSeq(code + CaseTail(n, items, next, end), Inside(env, GotoLoop(n))) <==>
      LegalSeq(code, Inside(env, GotoLoop(n)))
  {
    LegalConcat(code, CaseTail(n, items, next, end), Inside(env, GotoLoop(n)));
  }

  ghost predicate CasesLegal(cases: seq<JCase>, env: Env)
  {
    forall k :: 0 <= k < |cases| ==> LegalSeq(cases[k].body, env)
  }

  lemma {:induction false} SegmentsExact(ctx: Ctx, env: Env, items: seq<Item>, first: nat, end: nat, i: nat, n: nat,
                                         m: nat, sc: Scope)
    requires first == FirstTarget(items, 0) <= i <= end < |items| && items[i].lab.Some? && n < m
    requires Ready(ctx, env, LabelsIn(items), n) && Exact(ctx, env, sc, GotosIn(items))
    ensures var segs := LowerSegments(StateCtx(ctx, items, first, end, n), items, i, end, n, m);
      segs.ok && CasesLegal(segs.cases, Inside(env, GotoLoop(n))) <==>
        ScopedRange(items, i, first, end, InMachine(sc, LabelsBetween(items, first, end)))
    decreases Size(items), 1, |items| - i
  {
    hide LowerFrom, Ready, LabelsIn, Exact, GotosIn, ScopedRange, Size, LegalSeq;
    var inner, within := StateCtx(ctx, items, first, end, n), Inside(env, GotoLoop(n));
    var j := NextLabel(items, i + 1, end);
    var seg := Segment(items, i, j);
    SegmentSize(items, i, j);
    SegmentLabels(items, i, j);
    var b := LowerFrom(inner, seg, 0, m);
    MachinePiece(ctx, env, items, first, end, n, m, i, seg, sc);
    TailLegal(n, items, j, end, b.code, env);
    RangeSplits(items, i, j, first, end, InMachine(sc, LabelsBetween(items, first, end)));
    var segs := LowerSegments(inner, items, i, end, n, m);
    FirstAndRest(segs.cases, within);
    if j <= end {
      SegmentsExact(ctx, env, items, first, end, j, n, b.next, sc);
      var rest := LowerSegments(inner, items, j, end, n, b.next);
      assert segs.cases[1..] == rest.cases;
    } else {
      NothingLeft(items, j, first, end, InMachine(sc, LabelsBetween(items, first, end)));
      assert segs.cases[1..] == [];
    }
  }

  lemma {:induction false} NothingLeft(items: seq<Item>, i: nat, first: nat, end: nat, sc: Scope)
    requires end < |items| && i > end
    ensures ScopedRange(items, i, first, end, sc)
  {
  }

  lemma {:induction false} ClusterExact(ctx: Ctx, env: Env, items: seq<Item>, idx: nat, n: nat, sc: Scope)
    requires idx < |items| && ChunkAt(items, idx).Cluster? && OneCluster(items)
    requires Ready(ctx, env, LabelsIn(items), n) && Exact(ctx, env, sc, GotosIn(items))
    ensures var c := ChunkAt(items, idx);
      Good(LowerCluster(ctx, items, idx, c.first, c.end, n), env) <==>
        ScopedRange(items, idx, c.first, c.end, InMachine(sc, LabelsBetween(items, c.first, c.end)))
    decreases Size(items), 1, |items| + 2
  {
    hide LowerFrom, LowerSegments, Ready, LabelsIn, Exact, GotosIn, ScopedRange, Size, LegalSeq;
    var first, end := ChunkAt(items, idx).first, ChunkAt(items, idx).end;
    var inner, within, sc1 := StateCtx(ctx, items, first, end, n), Inside(env, GotoLoop(n)),
        InMachine(sc, LabelsBetween(items, first, end));
    var t := ClusterTable(ctx, items, idx, first, end, n);
    NewName(ctx, env, LabelsIn(items), n, GotoLoop(n));
    MachineLegal(n, t.values, t.cases, env);
    if idx < first {
      var b := LowerFrom(inner, items[idx..first], 0, n + 1);
      SliceLabels(items, idx, first);
      PartSize(items, idx, first);
      MachinePiece(ctx, env, items, first, end, n, n + 1, idx, items[idx..first], sc);
      TailLegal(n, items, first, end, b.code, env);
      RangeSplits(items, idx, first, first, end, sc1);
      SegmentsExact(ctx, env, items, first, end, first, n, b.next, sc);
      FirstAndRest(t.cases, within);
      assert t.cases[1..] == LowerSegments(inner, items, first, end, n, b.next).cases;
    } else {
      SegmentsExact(ctx, env, items, first, end, first, n, n + 1, sc);
    }
  }

  lemma {:induction false} MachineLegal(n: nat, values: seq<string>, cases: seq<JCase>, env: Env)
    requires values != [] && GotoLoop(n) !in env.breaks
    ensures LegalSeq(ClusterCode(n, values, cases), env) <==> CasesLegal(cases, Inside(env, GotoLoop(n)))
  {
    if LegalSeq(ClusterCode(n, values, cases), env) {
      forall k | 0 <= k < |cases|
        ensures LegalSeq(cases[k].body, Inside(env, GotoLoop(n)))
      {
        ClusterLegal(n, values, cases, env, k);
      }
    }
    if CasesLegal(cases, Inside(env, GotoLoop(n))) { MakeCluster(n, values, cases, env); }
  }

  lemma {:induction false} MakeCluster(n: nat, values: seq<string>, cases: seq<JCase>, env: Env)
    requires values != [] && GotoLoop(n) !in env.breaks && CasesLegal(cases, Inside(env, GotoLoop(n)))
    ensures LegalSeq(ClusterCode(n, values, cases), env)
  {
    var code := ClusterCode(n, values, cases);
    var within := Inside(env, GotoLoop(n));
    assert within.(breakable := true) == within;
    assert Legal(code[1].stmt.body[0], {}, within);
    LabelledLoop(GotoLoop(n), code[1].stmt, env);
  }

  lemma {:induction false} LabelledLoop(l: Name, loop: JS, env: Env)
    requires loop.JLoop? && l !in env.breaks
    ensures Legal(JLabeled(l, loop), {}, env) <==> LegalSeq(loop.body, Inside(env, l))
  {
    assert {} + {l} == {l};
    assert Legal(JLabeled(l, loop), {}, env) <==> Legal(loop, {} + {l}, env.(breaks := env.breaks + {l}));
  }

  // ----- labelled loops -----

  lemma {:induction false} LoopCodeLegal(l: Label, body: seq<JS>, env: Env)
    requires Src(l) !in env.breaks
    ensures LegalSeq(LoopCode(l, body), env) <==> LegalSeq(body, Inside(env, Src(l)))
  {
    var code := LoopCode(l, body);
    LegalOne(code[0], env);
    LabelledLoop(Src(l), code[0].stmt, env);
    LegalConcat(body, [JBreak], Inside(env, Src(l)));
  }

  lemma {:induction false} ListLabelNew(ctx: Ctx, env: Env, items: seq<Item>, n: nat, p: nat)
    requires Ready(ctx, env, LabelsIn(items), n) && p < |items| && items[p].lab.Some?
    ensures Src(items[p].lab.value) !in env.breaks
  {
    LabelOnce(items, p, p, items[p].lab.value);
  }

  /** The labelled statement of a loop, and the rest of its body. */
  lemma {:induction false} LoopPartsExact(ctx: Ctx, env: Env, items: seq<Item>, p: nat, end: nat, n: nat, m: nat,
                                          k: nat, sc: Scope)
    requires p <= end < |items| && items[p].lab.Some? && BackwardLabelAt(items, p) && n <= m && n <= k
    requires Ready(ctx, env, LabelsIn(items), n) && Exact(ctx, env, sc, GotosIn(items))
    ensures var l, inner := items[p].lab.value, BackwardCtx(ctx, items);
      (Good(LowerStmt(inner, items[p].stmt, m), Inside(env, Src(l))) <==> Scoped(items[p].stmt, None, InLoop(sc, l))) &&
      (Good(LowerFrom(inner, items[p + 1..end + 1], 0, k), Inside(env, Src(l))) <==>
       ScopedFrom(items[p + 1..end + 1], 0, InLoop(sc, l)))
    decreases Size(items), 0, 0
  {
    hide LowerFrom, LowerStmt, Ready, LabelsIn, Exact, GotosIn, ScopedFrom, Scoped, Size, LegalSeq, BackwardLabelAt;
    var l, seg := items[p].lab.value, items[p + 1..end + 1];
    var inner, within, sc1 := BackwardCtx(ctx, items), Inside(env, Src(l)), InLoop(sc, l);
    SizeAt(items, p);
    PartSize(items, p + 1, end + 1);
    ReadyDistinct(ctx, env, LabelsIn(items), n);
    LoopLabels(items, p, end, l);
    LoopReady(ctx, env, items, l, n, m, LabelsOf(items[p].stmt));
    LoopReady(ctx, env, items, l, n, k, LabelsIn(seg));
    LoopExact(ctx, env, sc, GotosIn(items), items, p, n);
    SliceLabels(items, p + 1, end + 1);
    GotosOfItem(items, p);
    GotosOfPart(items, p + 1, seg);
    ExactFor(inner, within, sc1, GotosIn(items), GotosOf(items[p].stmt));
    ExactFor(inner, within, sc1, GotosIn(items), GotosIn(seg));
    StmtExact(inner, within, items[p].stmt, None, m, sc1);
    FromExact(inner, within, seg, 0, k, sc1);
  }

  lemma {:induction false} BackwardExact(ctx: Ctx, env: Env, items: seq<Item>, idx: nat, end: nat, n: nat, sc: Scope)
    requires idx <= end < |items| && items[idx].lab.Some? && BackwardLabelAt(items, idx)
    requires Ready(ctx, env, LabelsIn(items), n) && Exact(ctx, env, sc, GotosIn(items))
    ensures Good(LowerBackward(ctx, items, idx, end, n), env) <==>
      ScopedLoop(items, idx, end, InLoop(sc, items[idx].lab.value))
    decreases Size(items), 1, 0
  {
    hide LowerFrom, LowerStmt, Ready, LabelsIn, Exact, GotosIn, ScopedFrom, Scoped, Size, LegalSeq, BackwardLabelAt;
    var inner, l := BackwardCtx(ctx, items), items[idx].lab.value;
    SizeAt(items, idx);
    PartSize(items, idx + 1, end + 1);
    var a := LowerStmt(inner, items[idx].stmt, n);
    var b := LowerFrom(inner, items[idx + 1..end + 1], 0, a.next);
    LoopPartsExact(ctx, env, items, idx, end, n, n, a.next, sc);
    ListLabelNew(ctx, env, items, n, idx);
    LoopCodeLegal(l, a.code + b.code, env);
    LegalConcat(a.code, b.code, Inside(env, Src(l)));
  }

  lemma {:induction false} LeadingExact(ctx: Ctx, env: Env, items: seq<Item>, idx: nat, end: nat, n: nat, sc: Scope)
    requires idx + 1 <= end < |items| && items[idx + 1].lab.Some? && LeadingAt(items, idx)
    requires Ready(ctx, env, LabelsIn(items), n) && Exact(ctx, env, sc, GotosIn(items))
    ensures Good(LowerLeading(ctx, items, idx, end, n), env) <==>
      ScopedLoop(items, idx + 1, end, InLoop(sc, items[idx + 1].lab.value))
    decreases Size(items), 1, 0
  {
    hide LowerFrom, LowerStmt, Ready, LabelsIn, Exact, GotosIn, ScopedFrom, Scoped, Size, LegalSeq, BackwardLabelAt;
    var inner, p, l := BackwardCtx(ctx, items), idx + 1, items[idx + 1].lab.value;
    SizeAt(items, p);
    PartSize(items, p + 1, end + 1);
    var a := LowerStmt(inner, items[p].stmt, n + 1);
    var b := LowerFrom(inner, items[p + 1..end + 1], 0, a.next);
    LoopPartsExact(ctx, env, items, p, end, n, n + 1, a.next, sc);
    ListLabelNew(ctx, env, items, n, p);
    LoopCodeLegal(l, LeadingFirst(n, a.code) + b.code, env);
    LegalConcat(LeadingFirst(n, a.code), b.code, Inside(env, Src(l)));
    LegalFirst(n, a.code, Inside(env, Src(l)));
    LegalConcat([JSet(Skip(n), Bool(true))], LoopCode(l, LeadingFirst(n, a.code) + b.code), env);
    SetLegal(Skip(n), env);
  }

  lemma {:induction false} SetLegal(v: Name, env: Env)
    ensures LegalSeq([JSet(v, Bool(true))], env)
  {
  }

  // ----- nested blocks -----

  lemma {:induction false} BlockPiece(ctx: Ctx, env: Env, items: seq<Item>, start: nat, last: nat, n: nat, m: nat,
                                      a: nat, seg: seq<Item>, sc: Scope)
    requires Ready(ctx, env, LabelsIn(items), n) && Exact(ctx, env, sc, GotosIn(items)) && n <= m
    requires Part(items, a, seg) && LabelsIn(seg) <= LabelsIn(items) && Size(seg) < Size(items)
    requires forall k :: 0 <= k < |seg| && seg[k].lab.Some? ==> !InGroup(items, start, last, a + k)
    ensures Good(LowerFrom(GroupCtx(ctx, items, start, last), seg, 0, m),
                 GroupEnv(env, items, start, last, a + |seg|)) <==>
      ScopedFrom(seg, 0, InBlocks(sc, items, start, last, a + |seg|))
    decreases Size(items), 0, 0
  {
    hide LowerFrom, Ready, LabelsIn, Exact, GotosIn, ScopedFrom, Size, LegalSeq;
    GroupReady(ctx, env, items, start, last, n, m, a, a + |seg|, seg);
    BlocksExact(ctx, env, sc, items, start, last, n, a, seg);
    FromExact(GroupCtx(ctx, items, start, last), GroupEnv(env, items, start, last, a + |seg|), seg, 0, m,
              InBlocks(sc, items, start, last, a + |seg|));
  }

  lemma {:induction false} BlockLegalExactly(l: Label, before: seq<JS>, env: Env)
    requires Src(l) !in env.breaks
    ensures LegalSeq([JLabeled(Src(l), JBlock(before))], env) <==>
      LegalSeq(before, env.(breaks := env.breaks + {Src(l)}))
  {
    var block := JLabeled(Src(l), JBlock(before));
    LegalOne(block, env);
    assert Legal(block, {}, env) <==> Legal(JBlock(before), {} + {Src(l)}, env.(breaks := env.breaks + {Src(l)}));
  }

  lemma {:induction false} NestExact(ctx: Ctx, env: Env, items: seq<Item>, start: nat, last: nat, p: nat,
                                     before: seq<JS>, n: nat, m: nat, sc: Scope)
    requires p <= last < |items| && InGroup(items, start, last, p) && InGroup(items, start, last, last)
    requires GroupClosed(items, start, last)
    requires Ready(ctx, env, LabelsIn(items), n) && Exact(ctx, env, sc, GotosIn(items)) && n <= m
    ensures Good(NestBlocks(GroupCtx(ctx, items, start, last), items, start, last, p, before, m), env) <==>
      LegalSeq(before, GroupEnv(env, items, start, last, p)) && ScopedNest(items, start, last, p, sc)
    decreases Size(items), 1, |items| - p
  {
    hide LowerFrom, Ready, LabelsIn, Exact, GotosIn, ScopedFrom, Size, LegalSeq, Legal, GroupEnv, InGroup, GroupClosed,
         GroupLabels, Segment;
    InGroupLabel(items, start, last, p);
    var l := items[p].lab.value;
    var block := JLabeled(Src(l), JBlock(before));
    if p == last {
      LastEnv(env, items, start, last);
      ListLabelNew(ctx, env, items, n, p);
      BlockLegalExactly(l, before, env);
    } else {
      var q := NextInGroup(items, start, last, p + 1);
      var seg, within := Segment(items, p, q), GroupEnv(env, items, start, last, q);
      SegmentSize(items, p, q);
      SegmentLabels(items, p, q);
      var a := LowerFrom(GroupCtx(ctx, items, start, last), seg, 0, m);
      SegmentOutside(items, start, last, p, q);
      BlockPiece(ctx, env, items, start, last, n, m, p, seg, sc);
      NextEnv(env, items, start, last, p, q);
      ReadyDistinct(ctx, env, LabelsIn(items), n);
      OnlyLater(ctx, env, items, start, last, n, q, p);
      BlockLegalExactly(l, before, within);
      LegalConcat([block], a.code, within);
      NestExact(ctx, env, items, start, last, q, [block] + a.code, n, a.next, sc);
    }
  }

  lemma {:induction false} InGroupLabel(items: seq<Item>, start: nat, last: nat, p: nat)
    requires InGroup(items, start, last, p)
    ensures p < |items| && items[p].lab.Some?
  {
  }

  /** Behind the last label of a group only its own block is open. */
  lemma {:induction false} LastEnv(env: Env, items: seq<Item>, start: nat, last: nat)
    requires InGroup(items, start, last, last) && GroupClosed(items, start, last)
    ensures GroupEnv(env, items, start, last, last) == env.(breaks := env.breaks + {Src(items[last].lab.value)})
  {
    assert GroupEnv(env, items, start, last, last).breaks == env.breaks + {Src(items[last].lab.value)};
  }

  lemma {:induction false} SegmentOutside(items: seq<Item>, start: nat, last: nat, p: nat, q: nat)
    requires p < q <= |items| && forall k :: p < k < q ==> !InGroup(items, start, last, k)
    ensures forall k :: 0 <= k < q - p && Segment(items, p, q)[k].lab.Some? ==> !InGroup(items, start, last, p + k)
  {
    hide InGroup;
  }

  lemma {:induction false} GroupExact(ctx: Ctx, env: Env, items: seq<Item>, idx: nat, last: nat, n: nat, sc: Scope)
    requires idx < last < |items| && InGroup(items, idx, last, last) && GroupClosed(items, idx, last)
    requires Ready(ctx, env, LabelsIn(items), n) && Exact(ctx, env, sc, GotosIn(items))
    ensures Good(LowerGroup(ctx, items, idx, last, n), env) <==> ScopedGroup(items, idx, last, sc)
    decreases Size(items), 1, |items| + 1
  {
    hide LowerFrom, LowerStmt, NestBlocks, Ready, LabelsIn, Exact, GotosIn, ScopedFrom, ScopedNest, Scoped, Size,
         LegalSeq, GroupClosed;
    var inner := GroupCtx(ctx, items, idx, last);
    var p := NextInGroup(items, idx, last, idx + 1);
    PartSize(items, idx, p);
    SizeAt(items, last);
    var a := LowerFrom(inner, items[idx..p], 0, n);
    var b := NestBlocks(inner, items, idx, last, p, a.code, a.next);
    SliceLabels(items, idx, p);
    BlockPiece(ctx, env, items, idx, last, n, n, idx, items[idx..p], sc);
    NestExact(ctx, env, items, idx, last, p, a.code, n, a.next, sc);
    LastExact(ctx, env, items, last, n, b.next, sc);
    LegalConcat(b.code, LowerStmt(ctx, items[last].stmt, b.next).code, env);
  }

  lemma {:induction false} LastExact(ctx: Ctx, env: Env, items: seq<Item>, last: nat, n: nat, m: nat, sc: Scope)
    requires last < |items| && n <= m
    requires Ready(ctx, env, LabelsIn(items), n) && Exact(ctx, env, sc, GotosIn(items))
    ensures Good(LowerStmt(ctx, items[last].stmt, m), env) <==> Scoped(items[last].stmt, None, sc)
    decreases Size(items), 0, 0
  {
    hide LowerStmt, Scoped, Ready, LabelsIn, Exact, GotosIn;
    var s := items[last].stmt;
    SizeAt(items, last);
    LabelsAt(items, last);
    ReadyWithin(ctx, env, LabelsIn(items), n, LabelsOf(s), m);
    GotosOfItem(items, last);
    ExactFor(ctx, env, sc, GotosIn(items), GotosOf(s));
    StmtExact(ctx, env, s, None, m, sc);
  }
}
