/** What it means for emitted code to do the same as its source, in a lowering context. */
module Simulation {
  import opened GoSource
  import opened JsTarget
  import opened Lowering
  import opened SourceChecks
  import opened Sublists

  /** The completion that stands for the source completion `c`, with the generated variables
      it relies on: a goto into a cluster has set the state variable, a return from a
      range-over-func body has set the flag and the value. */
  ghost predicate Emitted(ctx: Ctx, c: Comp, j: JComp, vars: map<Name, Val>)
  {
    match c
    case Normal => j == JNormal
    case Broke =>
      if ctx.loopLabel.Some? && !ctx.switchBreak then j == JBrokeTo(LoopName(ctx.loopLabel.value))
      else if ctx.range.Some? && ctx.rangeBreak then j == JReturned(Bool(false))
      else j == JBroke
    case Continued =>
      if ctx.loopLabel.Some? then j == JContinuedTo(LoopName(ctx.loopLabel.value))
      else if ctx.range.Some? && ctx.rangeContinue then j == JReturned(Bool(true))
      else j == JContinued
    case BrokeTo(l) => j == JBrokeTo(Src(l))
    case ContinuedTo(l) => j == JContinuedTo(Src(l))
    case Jumped(l) =>
      if ctx.state.Some? && l in ctx.state.value.labels then
        j == JContinuedTo(GotoLoop(ctx.state.value.id)) && Lookup(vars, GotoState(ctx.state.value.id)) == Str(l)
      else if l in ctx.forwardGotos then j == JBrokeTo(Src(l))
      else l in ctx.gotoLabels && j == JContinuedTo(Src(l))
    case Returned(v) =>
      if ctx.range.Some? then
        j == JReturned(Bool(false)) && Lookup(vars, RangeReturn(ctx.range.value)) == Bool(true) &&
        (v.Some? ==> Lookup(vars, RangeReturnValue(ctx.range.value)) == Num(v.value))
      else j == JReturned(ResultVal(v))
    case Panicked => false
  }

  function ResultVal(v: Option<Value>): Val
  {
    if v.Some? then Num(v.value) else Undefined
  }

  /** The generated variables of an enclosing construct that completion `c` may have set. */
  ghost function Touched(ctx: Ctx, c: Comp): set<Name>
  {
    match c
    case Jumped(l) => if ctx.state.Some? && l in ctx.state.value.labels then {GotoState(ctx.state.value.id)} else {}
    case Returned(_) =>
      if ctx.range.Some? then {RangeReturn(ctx.range.value), RangeReturnValue(ctx.range.value)} else {}
    case _ => {}
  }

  ghost predicate Below(x: Name, n: nat)
  {
    !x.Src? && x.id < n
  }

  /** Variables numbered below `n` keep their value, except those in `but`. */
  ghost predicate Kept(n: nat, old_: map<Name, Val>, new_: map<Name, Val>, but: set<Name>)
  {
    forall x :: Below(x, n) && x !in but ==> Lookup(new_, x) == Lookup(old_, x)
  }

  /** Code that ran from `ts` with result `r` follows the source outcome `src`: it diverges
      when the source does, it ends normally where the source is left with `cont`, and
      otherwise its completion stands for the source's, on the same store. */
  ghost predicate Follows(ctx: Ctx, n: nat, ts: JState, src: Outcome, cont: Store -> Outcome, r: JOutcome)
  {
    match r
    case JDiverge => src == Diverge
    case JDone(j, ts1) =>
      if j == JNormal then src == cont(ts1.user) && Kept(n, ts.vars, ts1.vars, {})
      else src.Done? && src.st == ts1.user && src.comp != Normal && Emitted(ctx, src.comp, j, ts1.vars) &&
           Kept(n, ts.vars, ts1.vars, Touched(ctx, src.comp))
  }

  ghost function Ends(): Store -> Outcome
  {
    st => Done(Normal, st)
  }

  ghost function Onward(items: seq<Item>, pc: nat): Store -> Outcome
  {
    st => RunFrom(items, pc, st)
  }

  /** What surrounds a piece of code: labels it declares are new, the labels its gotos may use
      are not open, and the numbers in use are below `n`. */
  ghost predicate Ready(ctx: Ctx, env: Env, labels: multiset<Label>, n: nat)
  {
    && Distinct(labels)
    && (forall l :: l in labels ==>
          Src(l) !in env.breaks && Src(l) !in env.continues && l !in ctx.forwardGotos &&
          (ctx.state.Some? ==> l !in ctx.state.value.labels))
    && (forall x :: x in env.breaks ==> Below(x, n) || x.Src?)
    && (ctx.state.Some? ==> ctx.state.value.id < n)
    && (ctx.state.Some? ==>
          forall l :: l in ctx.state.value.labels ==> Src(l) !in env.breaks && Src(l) !in env.continues)
    && (ctx.loopLabel.Some? ==> ctx.loopLabel.value < n)
    && (ctx.range.Some? ==> ctx.range.value < n)
  }

  lemma {:induction false} ReadyWithin(ctx: Ctx, env: Env, labels: multiset<Label>, n: nat, inner: multiset<Label>,
                                       m: nat)
    requires Ready(ctx, env, labels, n) && inner <= labels && n <= m
    ensures Ready(ctx, env, inner, m)
  {
    DistinctBelow(inner, labels);
  }

  lemma {:induction false} ReadyDistinct(ctx: Ctx, env: Env, labels: multiset<Label>, n: nat)
    requires Ready(ctx, env, labels, n)
    ensures Distinct(labels)
  {
  }

  /** A goto to a label of the running list cannot escape a piece of it as a branch: the
      branch would name a label that is not open. */
  lemma {:induction false} NoOwnJump(ctx: Ctx, env: Env, items: seq<Item>, n: nat, c: Comp, j: JComp, ts: JState)
    requires Ready(ctx, env, LabelsIn(items), n)
    requires Emitted(ctx, c, j, ts.vars) && Lands(JDone(j, ts), {}, env)
    ensures c.Jumped? ==> !HasLabel(items, c.lab)
  {
    if c.Jumped? && HasLabel(items, c.lab) {
      var p := IndexOf(items, c.lab);
      LabelOnce(items, p, p, c.lab);
      assert false;
    }
  }

  /** Sequencing: what follows goes on from where the first part left the source. */
  lemma {:induction false} FollowsThen(ctx: Ctx, n: nat, m: nat, ts: JState, src: Outcome, mid: Store -> Outcome,
                                       cont: Store -> Outcome, a: seq<JS>, b: seq<JS>)
    requires n <= m
    requires Follows(ctx, n, ts, src, mid, JRun(a, ts))
    requires var r := JRun(a, ts);
      r.JDone? && r.comp == JNormal ==> Follows(ctx, m, r.ts, mid(r.ts.user), cont, JRun(b, r.ts))
    ensures Follows(ctx, n, ts, src, cont, JRun(a + b, ts))
  {
    JRunConcat(a, b, ts);
  }

  lemma {:induction false} LegalConcat(a: seq<JS>, b: seq<JS>, env: Env)
    ensures LegalSeq(a + b, env) <==> LegalSeq(a, env) && LegalSeq(b, env)
  {
    if LegalSeq(a + b, env) {
      forall k | 0 <= k < |a| ensures Legal(a[k], {}, env) { assert (a + b)[k] == a[k]; }
      forall k | 0 <= k < |b| ensures Legal(b[k], {}, env) { assert (a + b)[|a| + k] == b[k]; }
    }
  }

  lemma {:induction false} RunOne(s: JS, ts: JState)
    ensures JRun([s], ts) == JExec(s, {}, ts)
  {
    var r := JExec(s, {}, ts);
    if r.JDone? && r.comp == JNormal { assert JRun([s][1..], r.ts) == r; }
  }

  lemma {:induction false} LegalOne(s: JS, env: Env)
    ensures LegalSeq([s], env) <==> Legal(s, {}, env)
  {
    if LegalSeq([s], env) { assert Legal([s][0], {}, env); }
  }

  /** The code of a list follows the list, from every state. */
  ghost predicate BodyFollows(ctx: Ctx, n: nat, items: seq<Item>, code: seq<JS>)
  {
    forall x: JState :: Follows(ctx, n, x, RunFrom(items, 0, x.user), Ends(), JRun(code, x))
  }
}
