/** When the added loops keep the meaning of a list: exactly when the run with captured branches,
    entered where the code enters it, is the run of the list, up to branches that are emitted alike. */
module CaptureTheorems {
  import opened Iteration
  import opened GoSource
  import opened JsTarget
  import opened GotoAnalysis
  import opened Lowering
  import opened SourceChecks
  import opened Sublists
  import opened ListRuns
  import opened Captures
  import opened Simulation
  import opened LoweringProof
  import opened Placement

  predicate AddsLoop(items: seq<Item>, idx: nat)
    requires idx < |items|
  {
    var c := ChunkAt(items, idx);
    c.Cluster? || c.Leading? || c.Backward?
  }

  /** The part of the list that becomes a loop when the lowering stands at `idx`. */
  function RegionAt(items: seq<Item>, idx: nat): Region
    requires idx < |items| && AddsLoop(items, idx)
  {
    match ChunkAt(items, idx)
    case Cluster(first, end) => Machine(idx, first, end)
    case Leading(end) => Labelled(idx + 1, end)
    case Backward(end) => Labelled(idx, end)
  }

  /** Where the code enters it. */
  function EntryAt(items: seq<Item>, idx: nat): nat
    requires idx < |items|
  {
    if ChunkAt(items, idx).Leading? then idx + 2 else idx
  }

  /** The statements of the part are faithful, whatever their own plain branches do. */
  predicate PartsFaithful(f: Flow, items: seq<Item>, idx: nat)
    requires idx < |items| && AddsLoop(items, idx)
  {
    match ChunkAt(items, idx)
    case Cluster(_, end) => FaithfulRange(f, items, idx, end)
    case Leading(end) => FaithfulLoop(f, items, idx + 1, end)
    case Backward(end) => FaithfulLoop(f, items, idx, end)
  }

  ghost function Captured(ctx: Ctx, items: seq<Item>, idx: nat, st: Store): Outcome
    requires idx < |items| && AddsLoop(items, idx)
  {
    CaptRun(items, RegionAt(items, idx), FlowOf(ctx), EntryAt(items, idx), st)
  }

  /** The code of the part follows this outcome. */
  ghost predicate CodeFollows(ctx: Ctx, items: seq<Item>, idx: nat, n: nat, ts: JState, o: Outcome)
    requires idx < |items|
  {
    Follows(ctx, n, ts, o, Onward(items, NextIdx(ChunkAt(items, idx), idx)),
            JRun(LowerChunk(ctx, items, idx, n).code, ts))
  }

  /** The branch that a completion is emitted as: a goto to the label of an enclosing block or loop
      is a break or continue of it. */
  function BranchOf(ctx: Ctx, c: Comp): Comp
  {
    match c
    case Jumped(l) =>
      if ctx.state.Some? && l in ctx.state.value.labels then c
      else if l in ctx.forwardGotos then BrokeTo(l)
      else if l in ctx.gotoLabels then ContinuedTo(l)
      else c
    case _ => c
  }

  /** The outcomes are the same, up to branches that the context emits alike. */
  predicate Alike(ctx: Ctx, a: Outcome, b: Outcome)
  {
    a == b || (a.Done? && b.Done? && a.st == b.st && BranchOf(ctx, a.comp) == BranchOf(ctx, b.comp))
  }

  /** The code does what the list does, from this state on. */
  ghost predicate KeepsMeaning(ctx: Ctx, items: seq<Item>, idx: nat, n: nat, ts: JState)
    requires idx < |items|
  {
    exists o: Outcome :: Alike(ctx, o, RunFrom(items, idx, ts.user)) && CodeFollows(ctx, items, idx, n, ts, o)
  }

  /** The lowering of the part is under way: its code is legal, and no return is pending. */
  ghost predicate Lowered(ctx: Ctx, env: Env, items: seq<Item>, idx: nat, n: nat, ts: JState)
    requires idx < |items|
  {
    && Ready(ctx, env, LabelsIn(items), n) && Standing(items, idx) && SaneIn(items, ctx.hasResult)
    && Good(LowerChunk(ctx, items, idx, n), env)
    && (ctx.range.Some? ==> Lookup(ts.vars, RangeReturn(ctx.range.value)) != Bool(true))
  }

  /** For every store the emitted code follows the run with captured branches. */
  lemma {:induction false} ChunkCaptures(ctx: Ctx, env: Env, items: seq<Item>, idx: nat, n: nat, ts: JState)
    requires idx < |items| && AddsLoop(items, idx)
    requires Lowered(ctx, env, items, idx, n, ts) && PartsFaithful(FlowOf(ctx), items, idx)
    ensures CodeFollows(ctx, items, idx, n, ts, Captured(ctx, items, idx, ts.user))
  {
    hide ChunkAt, LowerCluster, LowerLeading, LowerGroup, LowerBackward, Ready, SaneIn, LabelsIn, Follows, LegalSeq,
         FaithfulRange, FaithfulLoop, CaptRun, LeadingAt, BackwardLabelAt;
    ReadyDistinct(ctx, env, LabelsIn(items), n);
    ChunkKind(items, idx);
    match ChunkAt(items, idx)
    case Cluster(first, end) => SimCluster(ctx, env, items, idx, n, ts);
    case Leading(end) => SimLeading(ctx, env, items, idx, end, n, ts);
    case Backward(end) => SimBackward(ctx, env, items, idx, end, n, ts);
  }

  // ----- code follows one outcome only, up to branches that are emitted alike -----

  /** How a run may leave a list. */
  ghost predicate LeavesBy(o: Outcome, hasResult: bool)
  {
    o.Done? ==>
      match o.comp
      case Returned(v) => v.Some? == hasResult
      case Panicked => false
      case _ => true
  }

  lemma {:induction false} RunLeavesBy(items: seq<Item>, pc: nat, st: Store, hasResult: bool)
    requires SaneIn(items, hasResult)
    ensures LeavesBy(RunFrom(items, pc, st), hasResult)
  {
    RunExits(items, pc, st, hasResult);
  }

  lemma {:induction false} CaptLeavesBy(items: seq<Item>, g: Region, f: Flow, pc: nat, st: Store, hasResult: bool)
    requires SaneIn(items, hasResult)
    ensures LeavesBy(CaptRun(items, g, f, pc, st), hasResult)
  {
    var step, inv, post := CaptFn(items, g, f), (c: Counter) => true, (o: Outcome) => LeavesBy(o, hasResult);
    forall c: Counter ensures Keeps(step, inv, post, c) { CaptStepLeavesBy(items, g, f, c, hasResult); }
    LoopInvariant(step, At(pc, st), Diverge, inv, post);
  }

  lemma {:induction false} CaptStepLeavesBy(items: seq<Item>, g: Region, f: Flow, c: Counter, hasResult: bool)
    requires SaneIn(items, hasResult)
    ensures var s := CaptFn(items, g, f)(c); s.Stop? ==> LeavesBy(s.r, hasResult)
  {
    if !(g.start <= c.pc <= g.end && c.pc < |items|) {
      RunLeavesBy(items, c.pc, c.st, hasResult);
    } else {
      SaneAt(items, c.pc, hasResult);
      ItemExits(items[c.pc], c.st, hasResult);
      ExecExits(items[c.pc].stmt, None, c.st, hasResult);
    }
  }

  lemma {:induction false} FollowsOne(ctx: Ctx, n: nat, ts: JState, a: Outcome, b: Outcome, cont: Store -> Outcome,
                                      r: JOutcome)
    requires Follows(ctx, n, ts, a, cont, r) && Follows(ctx, n, ts, b, cont, r)
    requires LeavesBy(a, ctx.hasResult) && LeavesBy(b, ctx.hasResult)
    requires ctx.range.Some? ==> ctx.range.value < n && Lookup(ts.vars, RangeReturn(ctx.range.value)) != Bool(true)
    ensures Alike(ctx, a, b)
  {
    if r.JDone? && r.comp != JNormal {
      if ctx.range.Some? { assert Below(RangeReturn(ctx.range.value), n); }
      SameCompletion(ctx, a.comp, b.comp, r);
    }
  }

  lemma {:induction false} SameCompletion(ctx: Ctx, a: Comp, b: Comp, r: JOutcome)
    requires r.JDone? && Emitted(ctx, a, r.comp, r.ts.vars) && Emitted(ctx, b, r.comp, r.ts.vars) && a != Normal
    requires b != Normal
    requires LeavesBy(Done(a, r.ts.user), ctx.hasResult) && LeavesBy(Done(b, r.ts.user), ctx.hasResult)
    requires ctx.range.Some? && !(a.Returned? && b.Returned?) ==>
      Lookup(r.ts.vars, RangeReturn(ctx.range.value)) != Bool(true)
    ensures BranchOf(ctx, a) == BranchOf(ctx, b)
  {
  }

  // ----- the exact condition -----

  /** The emitted code keeps the meaning of the list from a store on if and only if the captures,
      and the place where the code enters the loop, make no difference to the run. */
  lemma {:induction false} KeptExactly(ctx: Ctx, env: Env, items: seq<Item>, idx: nat, n: nat, ts: JState)
    requires idx < |items| && AddsLoop(items, idx)
    requires Lowered(ctx, env, items, idx, n, ts) && PartsFaithful(FlowOf(ctx), items, idx)
    ensures KeepsMeaning(ctx, items, idx, n, ts) <==>
      Alike(ctx, Captured(ctx, items, idx, ts.user), RunFrom(items, idx, ts.user))
  {
    hide ChunkAt, LowerChunk, SaneIn, LabelsIn, Follows, LegalSeq, FaithfulRange, FaithfulLoop, CaptRun, RunFrom,
         PartsFaithful, AddsLoop, Standing, BranchOf;
    ChunkCaptures(ctx, env, items, idx, n, ts);
    if KeepsMeaning(ctx, items, idx, n, ts) {
      var o :| Alike(ctx, o, RunFrom(items, idx, ts.user)) && CodeFollows(ctx, items, idx, n, ts, o);
      RunLeavesBy(items, idx, ts.user, ctx.hasResult);
      AlikeLeavesBy(ctx, o, RunFrom(items, idx, ts.user));
      CaptLeavesBy(items, RegionAt(items, idx), FlowOf(ctx), EntryAt(items, idx), ts.user, ctx.hasResult);
      FollowsOne(ctx, n, ts, o, Captured(ctx, items, idx, ts.user), Onward(items, NextIdx(ChunkAt(items, idx), idx)),
                 JRun(LowerChunk(ctx, items, idx, n).code, ts));
    }
  }

  lemma {:induction false} AlikeLeavesBy(ctx: Ctx, a: Outcome, b: Outcome)
    requires Alike(ctx, a, b) && LeavesBy(b, ctx.hasResult)
    ensures LeavesBy(a, ctx.hasResult)
  {
  }

  /** Without a labelled break or continue among them, alike outcomes are the same. */
  lemma {:induction false} AlikeSame(ctx: Ctx, a: Outcome, b: Outcome)
    requires b.Done? ==> !b.comp.BrokeTo? && !b.comp.ContinuedTo?
    requires a.Done? && b.Done? && b.comp.Jumped? ==> !a.comp.BrokeTo? && !a.comp.ContinuedTo?
    ensures Alike(ctx, a, b) <==> a == b
  {
  }

  /** A goto in front of a loop goes to the statement at which the code enters the loop. */
  predicate EntersRight(items: seq<Item>, idx: nat)
    requires idx < |items|
  {
    ChunkAt(items, idx).Leading? ==> SkipsAt(items, idx)
  }

  lemma {:induction false} EnteredRuns(ctx: Ctx, env: Env, items: seq<Item>, idx: nat, n: nat, ts: JState)
    requires idx < |items| && Lowered(ctx, env, items, idx, n, ts) && EntersRight(items, idx)
    ensures RunFrom(items, EntryAt(items, idx), ts.user) == RunFrom(items, idx, ts.user)
  {
    hide ChunkAt, RunFrom, SkipsAt, SaneIn, Good, LabelsIn, Standing;
    ReadyDistinct(ctx, env, LabelsIn(items), n);
    if ChunkAt(items, idx).Leading? { LeadingJumps(items, idx, ts.user); }
  }

  /** The part runs under the conditions of `KeptExactly`, up to a statement that leaves it. */
  ghost predicate Leaving(ctx: Ctx, env: Env, items: seq<Item>, idx: nat, n: nat, ts: JState, k: nat, st1: Store,
                          c: Comp, st2: Store)
    requires idx < |items|
  {
    && AddsLoop(items, idx) && Lowered(ctx, env, items, idx, n, ts) && PartsFaithful(FlowOf(ctx), items, idx)
    && LeftBy(items, RegionAt(items, idx), EntryAt(items, idx), ts.user, k, st1, c, st2)
  }

  /** Where the code's run is left by a plain break in a state machine or an added loop: the meaning
      is kept if and only if the break is emitted with the name of the for loop or as a return, or
      the list behind the part breaks at once from the same store. When the code enters the loop
      at the wrong place, the list's own run counts instead of the break. */
  lemma {:induction false} BreakKeptExactly(ctx: Ctx, env: Env, items: seq<Item>, idx: nat, n: nat, ts: JState,
                                            k: nat, st1: Store, st2: Store)
    requires idx < |items| && Leaving(ctx, env, items, idx, n, ts, k, st1, Broke, st2)
    ensures EntersRight(items, idx) ==>
      (KeepsMeaning(ctx, items, idx, n, ts) <==>
       BreakLeaves(FlowOf(ctx)) || RunFrom(items, RegionAt(items, idx).end + 1, st2) == Done(Broke, st2))
    ensures KeepsMeaning(ctx, items, idx, n, ts) <==>
      Alike(ctx, if BreakLeaves(FlowOf(ctx)) then Done(Broke, st2) else RunFrom(items, RegionAt(items, idx).end + 1,
          st2),
            RunFrom(items, idx, ts.user))
  {
    hide ChunkAt, LowerChunk, SaneIn, LabelsIn, Follows, LegalSeq, CaptRun, RunFrom, PartsFaithful, LeftBy,
         KeepsMeaning, Lowered, BreakLeaves, EntersRight, RegionAt, EntryAt;
    KeptExactly(ctx, env, items, idx, n, ts);
    BreakRuns(items, RegionAt(items, idx), FlowOf(ctx), EntryAt(items, idx), ts.user, k, st1, st2);
    if EntersRight(items, idx) { EnteredRuns(ctx, env, items, idx, n, ts); }
  }

  /** The same for a plain continue, which otherwise repeats the state or the loop. */
  lemma {:induction false} ContinueKeptExactly(ctx: Ctx, env: Env, items: seq<Item>, idx: nat, n: nat, ts: JState,
                                               k: nat, st1: Store, st2: Store)
    requires idx < |items| && Leaving(ctx, env, items, idx, n, ts, k, st1, Continued, st2)
    ensures var g, f := RegionAt(items, idx), FlowOf(ctx);
      EntersRight(items, idx) ==>
      (KeepsMeaning(ctx, items, idx, n, ts) <==>
       ContinueLeaves(f) || CaptRun(items, g, f, Restart(items, g, k), st2) == Done(Continued, st2))
    ensures var g, f := RegionAt(items, idx), FlowOf(ctx);
      KeepsMeaning(ctx, items, idx, n, ts) <==>
      Alike(ctx, if ContinueLeaves(f) then Done(Continued, st2) else CaptRun(items, g, f, Restart(items, g, k), st2),
            RunFrom(items, idx, ts.user))
  {
    hide ChunkAt, LowerChunk, SaneIn, LabelsIn, Follows, LegalSeq, CaptRun, RunFrom, PartsFaithful, LeftBy,
         KeepsMeaning, Lowered, ContinueLeaves, EntersRight, RegionAt, EntryAt;
    KeptExactly(ctx, env, items, idx, n, ts);
    ContinueRuns(items, RegionAt(items, idx), FlowOf(ctx), EntryAt(items, idx), ts.user, k, st1, st2);
    if EntersRight(items, idx) { EnteredRuns(ctx, env, items, idx, n, ts); }
  }

  /** A break to the label of the added loop, from the statement that had the label: the list goes
      on behind the statement, the code behind the whole loop. */
  lemma {:induction false} LabelBreakKeptExactly(ctx: Ctx, env: Env, items: seq<Item>, idx: nat, n: nat, ts: JState,
                                                 l: Label, st1: Store, st2: Store)
    requires idx < |items| && AddsLoop(items, idx) && RegionAt(items, idx).Labelled?
    requires Leaving(ctx, env, items, idx, n, ts, RegionAt(items, idx).start, st1, BrokeTo(l), st2)
    requires items[RegionAt(items, idx).start].lab == Some(l)
    ensures EntersRight(items, idx) ==>
      RunFrom(items, idx, ts.user) == RunFrom(items, RegionAt(items, idx).start + 1, st2)
    ensures KeepsMeaning(ctx, items, idx, n, ts) <==>
      Alike(ctx, RunFrom(items, RegionAt(items, idx).end + 1, st2), RunFrom(items, idx, ts.user))
  {
    hide ChunkAt, LowerChunk, SaneIn, LabelsIn, Follows, LegalSeq, CaptRun, RunFrom, PartsFaithful, LeftBy,
         KeepsMeaning, Lowered, EntersRight, RegionAt, EntryAt, Alike;
    KeptExactly(ctx, env, items, idx, n, ts);
    LabelBreakRuns(items, RegionAt(items, idx), FlowOf(ctx), EntryAt(items, idx), ts.user, l, st1, st2);
    if EntersRight(items, idx) { EnteredRuns(ctx, env, items, idx, n, ts); }
  }

  /** A continue of that label: the list goes on with the next turn of the statement, the code
      begins the statement anew. */
  lemma {:induction false} LabelContinueKeptExactly(ctx: Ctx, env: Env, items: seq<Item>, idx: nat, n: nat, ts: JState,
                                                    l: Label, st1: Store, st2: Store)
    requires idx < |items| && AddsLoop(items, idx) && RegionAt(items, idx).Labelled?
    requires Leaving(ctx, env, items, idx, n, ts, RegionAt(items, idx).start, st1, ContinuedTo(l), st2)
    requires items[RegionAt(items, idx).start].lab == Some(l)
    ensures EntersRight(items, idx) ==> RunFrom(items, idx, ts.user) == RunFrom(items, RegionAt(items, idx).start, st1)
    ensures var g := RegionAt(items, idx);
      KeepsMeaning(ctx, items, idx, n, ts) <==>
      Alike(ctx, CaptRun(items, g, FlowOf(ctx), g.start, st2), RunFrom(items, idx, ts.user))
  {
    hide ChunkAt, LowerChunk, SaneIn, LabelsIn, Follows, LegalSeq, CaptRun, RunFrom, PartsFaithful, LeftBy,
         KeepsMeaning, Lowered, EntersRight, RegionAt, EntryAt, Alike;
    KeptExactly(ctx, env, items, idx, n, ts);
    LabelContinueRuns(items, RegionAt(items, idx), FlowOf(ctx), EntryAt(items, idx), ts.user, l, st1, st2);
    if EntersRight(items, idx) { EnteredRuns(ctx, env, items, idx, n, ts); }
  }

  /** The name `__entry` misleads a machine if and only if it is one of the machine's labels and the
      machine has a state in front of its first label. */
  lemma {:induction false} NameMisleadsExactly(items: seq<Item>, start: nat, first: nat, end: nat)
    ensures (exists k: nat :: Land(items, Machine(start, first, end), k) != k) <==>
      start < first && ENTRY in LabelsBetween(items, first, end)
  {
    if start < first && ENTRY in LabelsBetween(items, first, end) {
      var p :| first <= p < |items| && p <= end && items[p].lab.Some? && items[p].lab.value == ENTRY;
      assert Land(items, Machine(start, first, end), p) != p;
    }
  }

  /** From a store from which the run comes to that label, the meaning is kept if and only if
      starting the machine again gives what the list does there. */
  lemma {:induction false} NameKeptExactly(ctx: Ctx, env: Env, items: seq<Item>, idx: nat, n: nat, ts: JState,
                                           k: nat, st1: Store, e: nat, st2: Store)
    requires idx < |items| && ChunkAt(items, idx).Cluster?
    requires Lowered(ctx, env, items, idx, n, ts) && PartsFaithful(FlowOf(ctx), items, idx)
    requires ComesNamed(items, RegionAt(items, idx), idx, ts.user, k, st1, e, st2)
    ensures KeepsMeaning(ctx, items, idx, n, ts) <==> Alike(ctx, Captured(ctx, items, idx, st2), RunFrom(items, e, st2))
  {
    hide ChunkAt, LowerChunk, SaneIn, LabelsIn, Follows, LegalSeq, CaptRun, RunFrom, PartsFaithful, ComesNamed,
         KeepsMeaning, Lowered, Alike;
    KeptExactly(ctx, env, items, idx, n, ts);
    NamedRuns(items, RegionAt(items, idx), FlowOf(ctx), idx, ts.user, k, st1, e, st2);
  }

  /** A goto in front of a loop it enters: the code enters the loop behind its first statement, so
      the meaning is kept if and only if the run from there is the run from the goto's target. */
  lemma {:induction false} EntryKeptExactly(ctx: Ctx, env: Env, items: seq<Item>, idx: nat, n: nat, ts: JState)
    requires idx < |items| && ChunkAt(items, idx).Leading? && Lowered(ctx, env, items, idx, n, ts)
    requires PartsFaithful(FlowOf(ctx), items, idx) && CapturesNothing(items, RegionAt(items, idx), FlowOf(ctx))
    ensures items[idx].stmt.Goto? && HasLabel(items, items[idx].stmt.lab)
    ensures KeepsMeaning(ctx, items, idx, n, ts) <==>
      Alike(ctx, RunFrom(items, idx + 2, ts.user), RunFrom(items, IndexOf(items, items[idx].stmt.lab), ts.user))
  {
    hide ChunkAt, LowerChunk, LabelsIn, Follows, LegalSeq, CaptRun, RunFrom, PartsFaithful, KeepsMeaning,
         CapturesNothing, Alike;
    KeptExactly(ctx, env, items, idx, n, ts);
    NothingCaptured(items, RegionAt(items, idx), FlowOf(ctx), ctx.hasResult, idx + 2, ts.user);
    EntryTarget(ctx, env, items, idx, n, ts.user);
  }

  lemma {:induction false} EntryTarget(ctx: Ctx, env: Env, items: seq<Item>, idx: nat, n: nat, st: Store)
    requires idx < |items| && ChunkAt(items, idx).Leading? && Ready(ctx, env, LabelsIn(items), n)
    requires Standing(items, idx)
    ensures items[idx].stmt.Goto? && HasLabel(items, items[idx].stmt.lab)
    ensures RunFrom(items, idx, st) == RunFrom(items, IndexOf(items, items[idx].stmt.lab), st)
  {
    ReadyDistinct(ctx, env, LabelsIn(items), n);
    ChunkKind(items, idx);
    RunUnfold(items, idx, st);
  }
}
