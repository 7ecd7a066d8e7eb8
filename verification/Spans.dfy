/** Lists of one shape, by the positions of their gotos and labels: one state machine, or loops and
    blocks that do not cross. Their gotos are always in scope. */
module Spans {
  import opened GoSource
  import opened GotoAnalysis
  import opened Lowering
  import opened SourceChecks
  import opened Sublists
  import opened Scopes

  // ----- what a wider scope allows -----

  /** Whatever the scope `a` allows these gotos and the branches around them, `b` allows. Inside a
      state machine the labels of the machine around it are out of reach. */
  ghost predicate Within(a: Scope, b: Scope, gotos: seq<Label>)
  {
    && a.breaks <= b.breaks && a.loops <= b.loops && (a.breakable ==> b.breakable) && (a.loop ==> b.loop)
    && (forall l :: l in gotos && l in a.open ==> l in b.open)
    && (forall l :: l in gotos && l in a.machine ==> l in b.machine || l in b.open)
  }

  predicate LabelsFit(a: Option<Label>, b: Option<Label>)
  {
    a.None? || a == b
  }

  lemma {:induction false} MoreScoped(s: Stmt, own: Option<Label>, more: Option<Label>, a: Scope, b: Scope)
    requires Scoped(s, own, a) && Within(a, b, GotosOf(s)) && LabelsFit(own, more)
    ensures Scoped(s, more, b)
    decreases StmtSize(s), 0, 0
  {
    hide ScopedFrom, GotosIn;
    match s
    case Block(body) => MoreFrom(body, 0, a, b);
    case If(_, thn, els) => MoreFrom(thn, 0, a, b); MoreFrom(els, 0, a, b);
    case For(_, _, _, _, body) =>
      MoreFrom(body, 0, a.(loops := a.loops + OwnLabels(own), breakable := true, loop := true),
               b.(loops := b.loops + OwnLabels(more), breakable := true, loop := true));
    case Switch(_, clauses) => MoreClauses(clauses, a.(breakable := true), b.(breakable := true));
    case _ =>
  }

  lemma {:induction false} MoreClauses(clauses: seq<Clause>, a: Scope, b: Scope)
    requires ScopedClauses(clauses, a) && Within(a, b, GotosInClauses(clauses))
    ensures ScopedClauses(clauses, b)
    decreases ClausesSize(clauses), 0, 0
  {
    hide ScopedFrom, GotosIn;
    if clauses != [] {
      MoreFrom(clauses[0].body, 0, a, b);
      MoreClauses(clauses[1..], a, b);
    }
  }

  lemma {:induction false} MoreFrom(items: seq<Item>, idx: nat, a: Scope, b: Scope)
    requires ScopedFrom(items, idx, a) && Within(a, b, GotosIn(items))
    ensures ScopedFrom(items, idx, b)
    decreases Size(items), 3, if idx < |items| then |items| - idx else 0
  {
    hide ChunkAt, ScopedChunk, Size, GotosIn, Within;
    if idx < |items| {
      MoreChunk(items, idx, a, b);
      MoreFrom(items, NextIdx(ChunkAt(items, idx), idx), a, b);
    }
  }

  lemma {:induction false} MoreChunk(items: seq<Item>, idx: nat, a: Scope, b: Scope)
    requires idx < |items| && ScopedChunk(items, idx, a) && Within(a, b, GotosIn(items))
    ensures ScopedChunk(items, idx, b)
    decreases Size(items), 2, 0
  {
    hide Scoped, ScopedItem, ScopedRange, ScopedLoop, ScopedGroup, Size, GotosIn, ClusterAt, LeadingAt, BackwardEnd;
    SizeAt(items, idx);
    match ChunkAt(items, idx)
    case Plain =>
      GotosOfItem(items, idx);
      MoreItem(items[idx], a, b);
    case Cluster(first, end) =>
      var labels := LabelsBetween(items, first, end);
      MoreRange(items, idx, first, end, InMachine(a, labels), InMachine(b, labels));
    case Leading(end) =>
      var l := items[idx + 1].lab.value;
      MoreLoop(items, idx + 1, end, InLoop(a, l), InLoop(b, l));
    case Group(last) => MoreGroup(items, idx, last, a, b);
    case Backward(end) =>
      var l := items[idx].lab.value;
      MoreLoop(items, idx, end, InLoop(a, l), InLoop(b, l));
  }

  lemma {:induction false} MoreItem(it: Item, a: Scope, b: Scope)
    requires ScopedItem(it, a) && Within(a, b, GotosOf(it.stmt))
    ensures ScopedItem(it, b)
    decreases StmtSize(it.stmt), 1, 0
  {
    hide Scoped;
    var own := OwnLabels(it.lab);
    MoreScoped(it.stmt, it.lab, it.lab, a.(breaks := a.breaks + own), b.(breaks := b.breaks + own));
  }

  lemma {:induction false} MoreRange(items: seq<Item>, i: nat, first: nat, end: nat, a: Scope, b: Scope)
    requires end < |items| && ScopedRange(items, i, first, end, a) && Within(a, b, GotosIn(items))
    ensures ScopedRange(items, i, first, end, b)
    decreases Size(items), 1, |items| - i
  {
    hide Scoped, ScopedItem, Size, GotosIn;
    if i <= end {
      SizeAt(items, i);
      GotosOfItem(items, i);
      if i < first { MoreItem(items[i], a, b); } else { MoreScoped(items[i].stmt, None, None, a, b); }
      MoreRange(items, i + 1, first, end, a, b);
    }
  }

  lemma {:induction false} MoreLoop(items: seq<Item>, p: nat, end: nat, a: Scope, b: Scope)
    requires p <= end < |items| && ScopedLoop(items, p, end, a) && Within(a, b, GotosIn(items))
    ensures ScopedLoop(items, p, end, b)
    decreases Size(items), 1, 0
  {
    hide Scoped, ScopedFrom, Size, GotosIn;
    SizeAt(items, p);
    PartSize(items, p + 1, end + 1);
    SliceLabels(items, p + 1, end + 1);
    GotosOfItem(items, p);
    GotosOfPart(items, p + 1, items[p + 1..end + 1]);
    MoreScoped(items[p].stmt, None, None, a, b);
    MoreFrom(items[p + 1..end + 1], 0, a, b);
  }

  lemma {:induction false} MoreGroup(items: seq<Item>, start: nat, last: nat, a: Scope, b: Scope)
    requires start < last < |items| && InGroup(items, start, last, last) && ScopedGroup(items, start, last, a)
    requires Within(a, b, GotosIn(items))
    ensures ScopedGroup(items, start, last, b)
    decreases Size(items), 1, |items| + 1
  {
    hide Scoped, ScopedFrom, ScopedNest, Size, GotosIn, InGroup, BlocksFrom;
    var p := NextInGroup(items, start, last, start + 1);
    PartSize(items, start, p);
    SizeAt(items, last);
    SliceLabels(items, start, p);
    GotosOfItem(items, last);
    GotosOfPart(items, start, items[start..p]);
    MoreFrom(items[start..p], 0, InBlocks(a, items, start, last, p), InBlocks(b, items, start, last, p));
    MoreNest(items, start, last, p, a, b);
    MoreScoped(items[last].stmt, None, None, a, b);
  }

  lemma {:induction false} MoreNest(items: seq<Item>, start: nat, last: nat, p: nat, a: Scope, b: Scope)
    requires p <= last < |items| && InGroup(items, start, last, p) && InGroup(items, start, last, last)
    requires ScopedNest(items, start, last, p, a) && Within(a, b, GotosIn(items))
    ensures ScopedNest(items, start, last, p, b)
    decreases Size(items), 1, |items| - p
  {
    hide Scoped, ScopedFrom, Size, GotosIn, ForwardStart, BlocksFrom;
    if p < last {
      var q := NextInGroup(items, start, last, p + 1);
      SegmentSize(items, p, q);
      SegmentLabels(items, p, q);
      GotosOfPart(items, p, Segment(items, p, q));
      MoreFrom(Segment(items, p, q), 0, InBlocks(a, items, start, last, q), InBlocks(b, items, start, last, q));
      MoreNest(items, start, last, q, a, b);
    }
  }

  // ----- the shapes -----

  /** The statement at g holds a goto to the label at p. */
  predicate Jumps(items: seq<Item>, g: nat, p: nat)
  {
    p < |items| && items[p].lab.Some? && GotoAt(items, g, items[p].lab.value)
  }

  ghost predicate EndsBehind(items: seq<Item>, p: nat, g: nat)
  {
    exists last: nat :: g <= last && Jumps(items, last, p)
  }

  ghost predicate StartsAhead(items: seq<Item>, q: nat, p: nat)
  {
    exists first: nat :: first <= p && Jumps(items, first, q)
  }

  /** A label is the start of a loop that ends with the last goto back to it. Two loops are nested
      or disjoint. */
  ghost predicate Nested(items: seq<Item>)
  {
    forall p: nat, q: nat, g: nat, h: nat ::
      p < q <= h && q <= g && Jumps(items, h, p) && Jumps(items, g, q) ==> EndsBehind(items, p, g)
  }

  /** A bare goto directly in front of a loop to the second statement of the loop. */
  ghost predicate Enters(items: seq<Item>, p: nat, g: nat, q: nat)
  {
    && p == g + 1 && q == g + 2 && q < |items| && EndsBehind(items, p, q)
    && items[g].lab.None? && items[g].stmt.Goto?
  }

  /** A label is also the end of a block that starts with the first goto forwards to it. A loop with a
      goto from `h` to `p` and a block with a goto from `g` to `q` are disjoint, or the block is
      inside the loop behind its label, or the loop is inside the block, or the block enters it. */
  ghost predicate Laminar(items: seq<Item>)
  {
    forall p: nat, h: nat, g: nat, q: nat :: p <= h && g < q && Jumps(items, h, p) && Jumps(items, g, q) ==>
      h < g || q < p || (p < g && EndsBehind(items, p, q)) || (h < q && StartsAhead(items, q, p)) ||
      Enters(items, p, g, q)
  }

  ghost predicate LoopInBlock(items: seq<Item>, p: nat, h: nat)
  {
    p <= h && Jumps(items, h, p) && exists g: nat, q: nat :: g <= p && h < q && Jumps(items, g, q)
  }

  /** A loop inside a block holds no label of a block. */
  ghost predicate Hollow(items: seq<Item>)
  {
    forall p: nat, h: nat, g: nat, q: nat :: LoopInBlock(items, p, h) && g < q && Jumps(items, g, q) ==> q <= p || h < q
  }

  /** Where a labelled statement that ends a block holds a goto forwards itself, a block around both is
      left from further in front. */
  ghost predicate Lifted(items: seq<Item>)
  {
    forall h: nat, p: nat, q: nat :: h < p < q && Jumps(items, h, p) && Jumps(items, p, q) ==> Covered(items, p)
  }

  ghost predicate Covered(items: seq<Item>, p: nat)
  {
    exists q: nat, g: nat :: g < p < q && Jumps(items, g, q)
  }

  /** The gotos of the list make loops and blocks that do not cross. */
  ghost predicate Spanned(items: seq<Item>)
  {
    Nested(items) && Laminar(items) && Hollow(items) && Lifted(items)
  }

  ghost predicate OneShape(items: seq<Item>)
  {
    OneCluster(items) || Spanned(items)
  }

  /** Every goto to a label of the list stands at the label or behind it. */
  ghost predicate Backwards(items: seq<Item>)
  {
    forall p: nat, g: nat :: Jumps(items, g, p) ==> p <= g
  }

  // ----- statements that may become part of a state machine -----

  /** Any statement of the machine; those from its first label on; those when it has a state in front
      of its first label. */
  datatype Place = Anywhere | Unlabelled | BehindEntry

  predicate MachineHas(items: seq<Item>, k: nat, place: Place)
  {
    && OneCluster(items) && k <= LastTouched(items, |items|)
    && match place
       case Anywhere => FirstOwnGoto(items, 0) <= k
       case Unlabelled => FirstTarget(items, 0) <= k
       case BehindEntry => FirstOwnGoto(items, 0) < FirstTarget(items, 0) <= k
  }

  /** The statements of a loop behind its label; the label is at `i`. */
  ghost predicate BodyAt(items: seq<Item>, i: nat, seg: seq<Item>)
  {
    && BackwardLabelAt(items, i)
    && var end := BackwardEnd(items, items[i].lab.value).value;
      i <= end && seg == items[i + 1..end + 1]
  }

  /** A piece of a block from its first goto or a label of a block on, up to the next label of one. */
  ghost predicate PieceAt(items: seq<Item>, a: nat, b: nat, seg: seq<Item>)
  {
    && a < b < |items| && ForwardStart(items, b).Some?
    && (forall t :: a < t < b ==> ForwardStart(items, t).None?)
    && seg == (if ForwardStart(items, a).Some? then Segment(items, a, b) else items[a..b])
    && (ForwardStart(items, a).Some? || exists q :: 0 <= q < |items| && ForwardStart(items, q) == Some(a))
  }

  /** A part of the list that is lowered as a list of its own. */
  ghost predicate PartAt(items: seq<Item>, a: nat, seg: seq<Item>)
  {
    |seg| < |items| && ((a > 0 && BodyAt(items, a - 1, seg)) || PieceAt(items, a, a + |seg|, seg))
  }

  /** The statement may become part of a machine, of the list or of a part of it. */
  ghost predicate InsideMachine(items: seq<Item>, k: nat, place: Place)
    decreases |items|
  {
    MachineHas(items, k, place) ||
    exists a: nat, seg: seq<Item> :: a <= k && PartAt(items, a, seg) && InsideMachine(seg, k - a, place)
  }

  /** No label of a state machine has the name of the state in front of them. */
  ghost predicate EntryFree(items: seq<Item>)
  {
    forall k :: 0 <= k < |items| && InsideMachine(items, k, BehindEntry) ==> items[k].lab != Some(ENTRY)
  }

  /** The statement stands in a loop that the lowering adds. */
  ghost predicate Repeats(items: seq<Item>, k: nat)
  {
    InsideMachine(items, k, Anywhere) || exists p: nat, h: nat :: p <= k <= h && Jumps(items, h, p)
  }

  /** The lowering may take the label of the statement away. */
  ghost predicate LosesLabel(items: seq<Item>, k: nat)
  {
    TargetAt(items, k) || InsideMachine(items, k, Unlabelled)
  }

  function Targeted(items: seq<Item>): set<Label>
  {
    set p | 0 <= p < |items| && TargetAt(items, p) :: items[p].lab.value
  }

  /** The scope in which all targets of the list may be gone to. */
  ghost function StmtScope(items: seq<Item>, k: nat, sc: Scope): Scope
  {
    if InsideMachine(items, k, Anywhere) then sc.(machine := Targeted(items))
    else sc.(open := sc.open + Targeted(items))
  }

  /** The statement at `k` is in that scope. */
  ghost predicate InScope(items: seq<Item>, k: nat, sc: Scope)
    requires k < |items|
  {
    if LosesLabel(items, k) then Scoped(items[k].stmt, None, StmtScope(items, k, sc))
    else ScopedItem(items[k], StmtScope(items, k, sc))
  }

  /** Neither gotos nor their labels lie on different sides of `idx`. */
  ghost predicate Ended(items: seq<Item>, idx: nat)
  {
    forall p: nat, g: nat :: Jumps(items, g, p) ==> (p < idx <==> g < idx)
  }

  /** The statements of the list keep what they do, and in the loops that the lowering adds their
      plain branches leave these loops. */
  ghost predicate Lasting(items: seq<Item>, f: Flow)
  {
    && EntryFree(items)
    && forall k :: 0 <= k < |items| ==>
      Faithful(f, items[k].stmt) && (Repeats(items, k) ==> Survives(f, items[k].stmt))
  }

  /** No label of the list may be named from outside. */
  ghost predicate NewLabels(labels: multiset<Label>, sc: Scope)
  {
    forall l :: l in labels ==> Unnamed(sc, l)
  }

  /** What the traversal of such a list keeps. */
  ghost predicate Shaped(items: seq<Item>, idx: nat, sc: Scope)
  {
    && Distinct(LabelsIn(items)) && NewLabels(LabelsIn(items), sc) && Standing(items, idx) && OneShape(items)
    && Ended(items, idx)
    && forall k :: 0 <= k < |items| ==> InScope(items, k, sc)
  }

  // ----- statements of the list in the scope of their part -----

  /** The targets that a statement goes to are among `ends`. */
  ghost predicate GoesTo(items: seq<Item>, k: nat, ends: set<Label>)
    requires k < |items|
  {
    forall l :: l in GotosOf(items[k].stmt) && l in Targeted(items) ==> l in ends
  }

  /** The scope `b` allows the statement at `k` what `sc` does, and to go to its targets. */
  ghost predicate Fits(items: seq<Item>, k: nat, sc: Scope, b: Scope)
    requires k < |items|
  {
    if InsideMachine(items, k, Anywhere) then
      Within(sc.(machine := {}), b, GotosOf(items[k].stmt)) && GoesTo(items, k, b.machine + b.open)
    else Within(sc, b, GotosOf(items[k].stmt)) && GoesTo(items, k, b.open)
  }

  lemma {:induction false} BareScoped(items: seq<Item>, k: nat, sc: Scope, more: Option<Label>, b: Scope)
    requires k < |items| && InScope(items, k, sc) && LosesLabel(items, k) && Fits(items, k, sc, b)
    ensures Scoped(items[k].stmt, more, b)
  {
    hide Scoped, LosesLabel, Targeted, InsideMachine, GotosOf;
    MoreScoped(items[k].stmt, None, more, StmtScope(items, k, sc), b);
  }

  lemma {:induction false} ItemScoped(items: seq<Item>, k: nat, sc: Scope, b: Scope)
    requires k < |items| && InScope(items, k, sc) && Fits(items, k, sc, b)
    ensures ScopedItem(items[k], b)
  {
    hide Scoped, LosesLabel, Targeted, InsideMachine, GotosOf;
    var all, it := StmtScope(items, k, sc), items[k];
    var own := OwnLabels(it.lab);
    if LosesLabel(items, k) {
      MoreScoped(it.stmt, None, it.lab, all, b.(breaks := b.breaks + own));
    } else {
      MoreScoped(it.stmt, it.lab, it.lab, all.(breaks := all.breaks + own), b.(breaks := b.breaks + own));
    }
  }

  // ----- gotos and their labels -----

  lemma {:induction false} JumpsOwn(items: seq<Item>, k: nat)
    ensures OwnGotoAt(items, k) <==> exists p: nat :: Jumps(items, k, p)
    ensures TargetAt(items, k) <==> exists g: nat :: Jumps(items, g, k)
  {
    if OwnGotoAt(items, k) {
      var p :| 0 <= p < |items| && items[p].lab.Some? && GotoAt(items, k, items[p].lab.value);
      assert Jumps(items, k, p);
    }
    if TargetAt(items, k) {
      var g :| 0 <= g < |items| && GotoAt(items, g, items[k].lab.value);
      assert Jumps(items, g, k);
    }
  }

  lemma {:induction false} JumpsIn(items: seq<Item>, g: nat, p: nat)
    requires Jumps(items, g, p)
    ensures g < |items| && p < |items|
  {
  }

  lemma {:induction false} JumpsPart(items: seq<Item>, a: nat, seg: seq<Item>, g: nat, p: nat)
    requires Part(items, a, seg)
    ensures Jumps(seg, g, p) ==> g < |seg| && p < |seg| && Jumps(items, a + g, a + p)
    ensures Jumps(items, a + g, a + p) && g < |seg| && p < |seg| && seg[p].lab == items[a + p].lab ==> Jumps(seg, g, p)
  {
  }

  lemma {:induction false} HoldsGoto(items: seq<Item>, k: nat, l: Label) returns (p: nat)
    requires k < |items| && l in GotosOf(items[k].stmt) && l in Targeted(items)
    ensures Jumps(items, k, p) && TargetAt(items, p) && items[p].lab == Some(l)
  {
    p :| 0 <= p < |items| && TargetAt(items, p) && items[p].lab.value == l;
  }

  lemma {:induction false} NoOwnGoesTo(items: seq<Item>, k: nat)
    requires k < |items| && !OwnGotoAt(items, k)
    ensures GoesTo(items, k, {})
  {
    forall l | l in GotosOf(items[k].stmt) ensures l !in Targeted(items) {
      if l in Targeted(items) {
        var p := HoldsGoto(items, k, l);
        JumpsOwn(items, k);
      }
    }
  }

  lemma {:induction false} StartsStanding(items: seq<Item>)
    ensures Standing(items, 0) && Ended(items, 0)
  {
  }

  /** The loop of a label ends with the last goto back to it, or with a return without a label that stands
      directly behind that. */
  lemma {:induction false} LoopSpan(items: seq<Item>, p: nat) returns (last: nat, end: nat)
    requires Distinct(LabelsIn(items)) && BackwardLabelAt(items, p)
    ensures p <= last <= end < |items| && end <= last + 1 && end == BackwardEnd(items, items[p].lab.value).value
    ensures Jumps(items, last, p) && forall g: nat :: Jumps(items, g, p) && p <= g ==> g <= last
    ensures last < end <==> last + 1 < |items| && items[last + 1].lab.None? && items[last + 1].stmt.Return?
    ensures last < end ==> PlainReturnAt(items, end)
  {
    hide LabelsIn;
    BackwardIsTarget(items, p);
    var l := items[p].lab.value;
    last, end := LastBackward(items, l, |items|).value, BackwardEnd(items, l).value;
    forall g: nat | Jumps(items, g, p) && p <= g ensures g <= last { assert LabelSeen(items, l, g); }
  }

  /** The block of a label starts at the first goto to it, and no loop starts there. */
  lemma {:induction false} SpanStarts(items: seq<Item>, idx: nat, g: nat, q: nat)
    requires Laminar(items) && Distinct(LabelsIn(items)) && Ended(items, idx) && idx <= g < q && Jumps(items, g, q)
    ensures q < |items| && ForwardStart(items, q).Some? && idx <= ForwardStart(items, q).value <= g
    ensures Jumps(items, ForwardStart(items, q).value, q)
  {
    hide LabelsIn;
    if BackwardLabelAt(items, q) {
      hide BackwardLabelAt;
      var h, end := LoopSpan(items, q);
    }
    var s := ForwardStart(items, q);
    assert s.Some? && s.value <= g;
    assert Jumps(items, s.value, q);
  }

  // ----- loops -----

  /** The loop for the label at `p`, when the traversal stands at it, or at a goto in front of it to its
      second statement. */
  ghost predicate LoopThere(items: seq<Item>, idx: nat, p: nat, last: nat, end: nat)
  {
    && Spanned(items) && Distinct(LabelsIn(items)) && Ended(items, idx)
    && p <= last <= end < |items| && end <= last + 1 && items[p].lab.Some? && Jumps(items, last, p)
    && (forall g: nat :: Jumps(items, g, p) && p <= g ==> g <= last) && (last < end ==> PlainReturnAt(items, end))
    && !LoopInBlock(items, p, last)
    && (idx == p || (p == idx + 1 && items[idx].lab.None? && items[idx].stmt.Goto? && Jumps(items, idx, p + 1)))
  }

  /** A goto in the loop goes to a label in the loop, and one to a label in the loop stands in it. */
  lemma {:induction false} LoopJump(items: seq<Item>, idx: nat, p: nat, last: nat, end: nat, g: nat, q: nat)
    requires LoopThere(items, idx, p, last, end) && Jumps(items, g, q)
    ensures idx <= g <= end || idx <= q <= end ==> idx <= g <= last && p <= q <= last
    ensures (g == p ==> q == p) && (idx <= g < p ==> q == p + 1)
  {
    hide LabelsIn;
    assert g != end || end == last;
    assert q != end || end == last;
    if idx <= g < p {
      LabelOnce(items, p + 1, q, items[idx].stmt.lab);
      JumpsIn(items, g, q);
    } else if q <= g {
      assert p < q <= last ==> EndsBehind(items, p, g);
    } else if p <= g {
      assert last < g || (p < g && EndsBehind(items, p, q)) || (last < q && StartsAhead(items, q, p));
    }
  }

  /** What lies in front of `a`, from there to `end`, and behind. The first part may go to the first
      statement of the second, and the second to the last of the first. */
  ghost predicate Enclosed(items: seq<Item>, a: nat, end: nat)
  {
    forall g: nat, p: nat :: Jumps(items, g, p) ==>
      && (g < a ==> p <= a)
      && (a <= g < end ==> a <= p + 1 && p < end)
      && (end <= g ==> p < a || end <= p)
  }

  lemma {:induction false} LoopEncloses(items: seq<Item>, idx: nat, p: nat, last: nat, end: nat)
    requires LoopThere(items, idx, p, last, end)
    ensures Enclosed(items, p + 1, end + 1) && Ended(items, end + 1)
  {
    hide LoopThere, Jumps;
    assert idx <= p <= idx + 1 && p <= last <= end && Ended(items, idx) by { LoopBounds(items, idx, p, last, end); }
    forall g: nat, q: nat | Jumps(items, g, q)
      ensures g < p + 1 ==> q <= p + 1
      ensures p + 1 <= g < end + 1 ==> p <= q && q < end + 1
      ensures end + 1 <= g ==> q < p + 1 || end + 1 <= q
      ensures q < end + 1 <==> g < end + 1
    {
      LoopJump(items, idx, p, last, end, g, q);
      assert q < idx <==> g < idx;
    }
  }

  lemma {:induction false} LoopBounds(items: seq<Item>, idx: nat, p: nat, last: nat, end: nat)
    requires LoopThere(items, idx, p, last, end)
    ensures idx <= p <= idx + 1 && p <= last <= end < |items| && Ended(items, idx) && items[p].lab.Some?
  {
  }

  /** The body of a loop is a list whose loops and blocks do not cross. */
  lemma {:induction false} BodySpanned(items: seq<Item>, a: nat, end: nat)
    requires Spanned(items) && Enclosed(items, a, end) && a <= end <= |items|
    ensures Spanned(items[a..end])
  {
    hide Jumps, LoopInBlock, Laminar, Hollow, Lifted, Nested;
    var seg := items[a..end];
    BodyNested(items, a, end);
    BodyLaminar(items, a, end);
    BodyHollow(items, a, end);
    BodyLifted(items, a, end);
  }

  lemma {:induction false} BodyEnds(items: seq<Item>, a: nat, end: nat, p: nat, g: nat)
    requires Enclosed(items, a, end) && a <= end <= |items|
    requires p < end - a && g < end - a && EndsBehind(items, a + p, a + g)
    ensures EndsBehind(items[a..end], p, g)
  {
    hide Jumps;
    var last: nat :| a + g <= last && Jumps(items, last, a + p);
    JumpsPart(items, a, items[a..end], last - a, p);
  }

  lemma {:induction false} BodyNested(items: seq<Item>, a: nat, end: nat)
    requires Nested(items) && Enclosed(items, a, end) && a <= end <= |items|
    ensures Nested(items[a..end])
  {
    hide Jumps, EndsBehind;
    var seg := items[a..end];
    forall p: nat, q: nat, g: nat, h: nat | p < q <= h && q <= g && Jumps(seg, h, p) && Jumps(seg, g, q)
      ensures EndsBehind(seg, p, g)
    {
      JumpsPart(items, a, seg, h, p);
      JumpsPart(items, a, seg, g, q);
      BodyEnds(items, a, end, p, g);
    }
  }

  lemma {:induction false} BodyLaminar(items: seq<Item>, a: nat, end: nat)
    requires Laminar(items) && Enclosed(items, a, end) && a <= end <= |items|
    ensures Laminar(items[a..end])
  {
    hide Jumps, EndsBehind, StartsAhead, Enters;
    var seg := items[a..end];
    forall p: nat, h: nat, g: nat, q: nat | p <= h && g < q && Jumps(seg, h, p) && Jumps(seg, g, q)
      ensures h < g || q < p || (p < g && EndsBehind(seg, p, q)) || (h < q && StartsAhead(seg, q, p)) ||
        Enters(seg, p, g, q)
    {
      JumpsPart(items, a, seg, h, p);
      JumpsPart(items, a, seg, g, q);
      if EndsBehind(items, a + p, a + q) { BodyEnds(items, a, end, p, q); }
      if h < q && StartsAhead(items, a + q, a + p) { BodyStarts(items, a, end, g, q, p); }
      if Enters(items, a + p, a + g, a + q) { BodyEnters(items, a, end, p, g, q); }
    }
  }

  lemma {:induction false} BodyStarts(items: seq<Item>, a: nat, end: nat, g: nat, q: nat, p: nat)
    requires Enclosed(items, a, end) && a <= end <= |items| && g < q < end - a && Jumps(items[a..end], g, q)
    requires StartsAhead(items, a + q, a + p) && p < end - a
    ensures StartsAhead(items[a..end], q, p)
  {
    hide Jumps;
    var seg := items[a..end];
    var first: nat :| first <= a + p && Jumps(items, first, a + q);
    JumpsPart(items, a, seg, first - a, q);
  }

  lemma {:induction false} BodyEnters(items: seq<Item>, a: nat, end: nat, p: nat, g: nat, q: nat)
    requires Enclosed(items, a, end) && a <= end <= |items| && q < end - a && Enters(items, a + p, a + g, a + q)
    ensures Enters(items[a..end], p, g, q)
  {
    hide EndsBehind;
    BodyEnds(items, a, end, p, q);
  }

  lemma {:induction false} BodyHollow(items: seq<Item>, a: nat, end: nat)
    requires Hollow(items) && a <= end <= |items|
    ensures Hollow(items[a..end])
  {
    hide Jumps;
    var seg := items[a..end];
    forall p: nat, h: nat, s: nat, t: nat | LoopInBlock(seg, p, h) && s < t && Jumps(seg, s, t)
      ensures t <= p || h < t
    {
      var g: nat, q: nat :| g <= p && h < q && Jumps(seg, g, q);
      JumpsPart(items, a, seg, g, q);
      JumpsPart(items, a, seg, h, p);
      JumpsPart(items, a, seg, s, t);
      assert LoopInBlock(items, a + p, a + h);
    }
  }

  lemma {:induction false} BodyLifted(items: seq<Item>, a: nat, end: nat)
    requires Lifted(items) && Enclosed(items, a, end) && a <= end <= |items|
    ensures Lifted(items[a..end])
  {
    hide Jumps;
    var seg := items[a..end];
    forall h: nat, p: nat, q: nat | h < p < q && Jumps(seg, h, p) && Jumps(seg, p, q) ensures Covered(seg, p) {
      JumpsPart(items, a, seg, h, p);
      JumpsPart(items, a, seg, p, q);
      var t: nat, g: nat :| g < a + p < t && Jumps(items, g, t);
      JumpsPart(items, a, seg, g - a, t - a);
    }
  }

  // ----- blocks -----

  /** A group of blocks where the traversal stands. */
  ghost predicate GroupThere(items: seq<Item>, idx: nat, last: nat)
  {
    && Spanned(items) && Distinct(LabelsIn(items)) && Ended(items, idx)
    && idx < |items| && ChunkAt(items, idx) == Group(last)
  }

  /** Every place in front of the last label is inside one of the blocks. */
  lemma {:induction false} Cover(items: seq<Item>, idx: nat, last: nat, x: nat) returns (h: nat, t: nat)
    requires idx < |items| && ChunkAt(items, idx) == Group(last) && idx <= x < last
    ensures idx <= h <= x < t <= last && InGroup(items, idx, last, t) && ForwardStart(items, t) == Some(h)
    ensures Jumps(items, h, t) && !BackwardLabelAt(items, t)
  {
    hide LeadingAt, ClusterAt, BackwardLabelAt;
    var e := LastStarting(items, idx, |items|).value;
    if x < e {
      h, t := idx, e;
    } else {
      assert !GroupClosed(items, idx, x);
      t :| x < t < |items| && InGroup(items, idx, x, t);
      assert InGroup(items, idx, last, t) && GroupClosed(items, idx, last);
      h := ForwardStart(items, t).value;
    }
  }

  /** No block of the group enters a loop. */
  lemma {:induction false} NotEntered(items: seq<Item>, idx: nat, last: nat, h: nat, t: nat, p: nat)
    requires GroupThere(items, idx, last) && idx <= h < last && Jumps(items, h, t)
    ensures !Enters(items, p, h, t)
  {
    hide LabelsIn, ChunkAt, Laminar, Nested, Hollow, Lifted, Ended, BackwardLabelAt;
    if Enters(items, p, h, t) {
      var far: nat :| t <= far && Jumps(items, far, p);
      TargetIsBackward(items, p, far);
      if h == idx {
        EnterLeads(items, idx, far);
      } else {
        var g, q := Cover(items, idx, last, h - 1);
        assert q != h && q != p;
        assert LoopInBlock(items, p, far) by { InBlock(items, p, far, g, q); }
        HollowAt(items, p, far, h, t);
      }
    }
  }

  lemma {:induction false} HollowAt(items: seq<Item>, p: nat, h: nat, g: nat, q: nat)
    requires Hollow(items) && LoopInBlock(items, p, h) && g < q && Jumps(items, g, q)
    ensures q <= p || h < q
  {
  }

  /** A loop that begins inside a block, and does not hold all of it, is in the block. */
  lemma {:induction false} InBlock(items: seq<Item>, p: nat, h: nat, g: nat, q: nat)
    requires Laminar(items) && p <= h && Jumps(items, h, p) && g < p < q && Jumps(items, g, q)
    requires !Enters(items, p, g, q)
    ensures LoopInBlock(items, p, h) && h < q
  {
  }

  /** A goto that enters a loop is taken together with the loop. */
  lemma {:induction false} EnterLeads(items: seq<Item>, idx: nat, far: nat)
    requires idx + 2 <= far && Jumps(items, idx, idx + 2) && Jumps(items, far, idx + 1)
    requires items[idx].lab.None? && items[idx].stmt.Goto?
    ensures !ChunkAt(items, idx).Group?
  {
    TargetIsBackward(items, idx + 1, far);
    assert LabelSeen(items, items[idx + 1].lab.value, far);
    assert LeadingAt(items, idx);
  }

  /** A goto of a statement in the group goes to a label of the group, or back to a label with no label
      of the group in between. */
  lemma {:induction false} GroupJump(items: seq<Item>, idx: nat, last: nat, g: nat, q: nat)
    requires GroupThere(items, idx, last) && Jumps(items, g, q) && (idx <= g <= last || idx <= q <= last)
    ensures idx <= g < last && idx <= q <= last
    ensures g < q ==> InGroup(items, idx, last, q)
    ensures q <= g ==> forall t :: q <= t <= g ==> !InGroup(items, idx, last, t)
  {
    hide LabelsIn, ChunkAt, Nested, Hollow, ForwardStart, Lifted, Laminar;
    if g < q {
      LastHoldsNone(items, idx, last, g, q);
      InsideGroup(items, idx, last, g, q);
    } else {
      LoopInGroup(items, idx, last, g, q);
    }
  }

  lemma {:induction false} InsideGroup(items: seq<Item>, idx: nat, last: nat, g: nat, q: nat)
    requires GroupThere(items, idx, last) && Jumps(items, g, q) && idx <= g < last && g < q
    ensures q <= last && InGroup(items, idx, last, q)
  {
    hide LabelsIn, Nested, Hollow, ForwardStart, Lifted, Laminar;
    SpanStarts(items, idx, g, q);
    assert InGroup(items, idx, last, q);
  }

  lemma {:induction false} LastHoldsNone(items: seq<Item>, idx: nat, last: nat, g: nat, q: nat)
    requires GroupThere(items, idx, last) && Jumps(items, g, q) && g < q && (idx <= g <= last || idx <= q <= last)
    ensures idx <= g < last
  {
    hide LabelsIn, Nested, Hollow, ForwardStart, Laminar;
    assert idx <= g <= last;
    if g == last {
      var h, t := Cover(items, idx, last, last - 1);
      var r: nat, s: nat :| s < last < r && Jumps(items, s, r);
      InsideGroup(items, idx, last, s, r);
    }
  }

  lemma {:induction false} LoopInGroup(items: seq<Item>, idx: nat, last: nat, g: nat, q: nat)
    requires GroupThere(items, idx, last) && Jumps(items, g, q) && (idx <= g <= last || idx <= q <= last) && q <= g
    ensures idx <= q <= g < last && forall t :: q <= t <= g ==> !InGroup(items, idx, last, t)
  {
    hide LabelsIn, Nested, ChunkAt, Lifted, ForwardStart;
    assert idx <= q;
    var x := if q < last then q else last - 1;
    var h, t := Cover(items, idx, last, x);
    NotEntered(items, idx, last, h, t, q);
    TargetIsBackward(items, q, g);
    assert LoopInBlock(items, q, g);
    forall u | q <= u <= g ensures !InGroup(items, idx, last, u) { LoopHoldsNone(items, idx, last, q, g, u); }
  }

  lemma {:induction false} LoopHoldsNone(items: seq<Item>, idx: nat, last: nat, q: nat, g: nat, u: nat)
    requires LoopInBlock(items, q, g) && BackwardLabelAt(items, q) && Hollow(items) && q <= u <= g
    ensures !InGroup(items, idx, last, u)
  {
    hide Hollow, BackwardLabelAt;
    if InGroup(items, idx, last, u) {
      HollowAt(items, q, g, ForwardStart(items, u).value, u);
    }
  }

  // ----- the parts of such a list -----

  lemma {:induction false} MachineToo(items: seq<Item>, a: nat, seg: seq<Item>, k: nat, place: Place)
    requires PartAt(items, a, seg) && InsideMachine(seg, k, place)
    ensures InsideMachine(items, a + k, place)
  {
    assert a + k - a == k;
  }

  lemma {:induction false} PartShorter(items: seq<Item>, a: nat, seg: seq<Item>)
    requires PartAt(items, a, seg)
    ensures |seg| < |items|
  {
    hide BodyAt, PieceAt;
  }

  /** A statement of a part, with its label or without one that is lost. */
  ghost predicate Taken(items: seq<Item>, a: nat, seg: seq<Item>, k: nat)
  {
    && k < |seg| && a + k < |items| && seg[k].stmt == items[a + k].stmt
    && (seg[k].lab == items[a + k].lab || (seg[k].lab.None? && TargetAt(items, a + k)))
  }

  lemma {:induction false} PartLoses(items: seq<Item>, a: nat, seg: seq<Item>, k: nat)
    requires PartAt(items, a, seg) && Part(items, a, seg) && LosesLabel(seg, k)
    ensures LosesLabel(items, a + k)
  {
    hide PartAt, InsideMachine, Jumps;
    if TargetAt(seg, k) {
      JumpsOwn(seg, k);
      var g: nat :| Jumps(seg, g, k);
      JumpsPart(items, a, seg, g, k);
      JumpsOwn(items, a + k);
    } else {
      MachineToo(items, a, seg, k, Unlabelled);
    }
  }

  lemma {:induction false} PartScoped(items: seq<Item>, a: nat, seg: seq<Item>, k: nat, sc: Scope, b: Scope)
    requires PartAt(items, a, seg) && Part(items, a, seg) && Taken(items, a, seg, k) && InScope(items, a + k, sc)
    requires Fits(items, a + k, sc, StmtScope(seg, k, b))
    ensures InScope(seg, k, b)
  {
    hide Scoped, Targeted, GotosOf, InsideMachine, Fits, PartAt, StmtScope, TargetAt;
    var inner := StmtScope(seg, k, b);
    if LosesLabel(seg, k) {
      PartLoses(items, a, seg, k);
      BareScoped(items, a + k, sc, None, inner);
    } else if seg[k].lab == items[a + k].lab {
      ItemScoped(items, a + k, sc, inner);
      assert seg[k] == items[a + k];
    } else {
      BareScoped(items, a + k, sc, None, inner);
      BareItem(seg[k], inner);
    }
  }

  /** The scope around a part allows its statements what the list's does, when it has the labels of the
      list that they go to and that are not in the part. */
  lemma {:induction false} PartFits(items: seq<Item>, a: nat, seg: seq<Item>, k: nat, sc: Scope, b: Scope)
    requires PartAt(items, a, seg) && k < |seg| && a + k < |items|
    requires Within(sc, b, GotosOf(items[a + k].stmt)) && GoesTo(items, a + k, b.open + Targeted(seg))
    ensures Fits(items, a + k, sc, StmtScope(seg, k, b))
  {
    hide PartAt, InsideMachine, Targeted, GotosOf;
    if InsideMachine(seg, k, Anywhere) { MachineToo(items, a, seg, k, Anywhere); }
  }

  lemma {:induction false} PartLasting(items: seq<Item>, a: nat, seg: seq<Item>, f: Flow)
    requires PartAt(items, a, seg) && Part(items, a, seg) && Lasting(items, f)
    ensures Lasting(seg, f)
  {
    hide PartAt, InsideMachine, Jumps, Faithful, Survives;
    forall k | 0 <= k < |seg| && InsideMachine(seg, k, BehindEntry) ensures seg[k].lab != Some(ENTRY) {
      MachineToo(items, a, seg, k, BehindEntry);
    }
    forall k | 0 <= k < |seg|
      ensures Faithful(f, seg[k].stmt) && (Repeats(seg, k) ==> Survives(f, seg[k].stmt))
    {
      assert Faithful(f, items[a + k].stmt);
      if InsideMachine(seg, k, Anywhere) {
        MachineToo(items, a, seg, k, Anywhere);
      } else if p: nat, h: nat :| p <= k <= h && Jumps(seg, h, p) {
        JumpsPart(items, a, seg, h, p);
        assert a + p <= a + k <= a + h;
      }
    }
  }

  // ----- the chunks of such a list -----

  /** A chunk of a shaped list is a statement, a state machine, a loop, a loop that is entered behind its
      first statement, or a group of blocks. */
  lemma {:induction false} ShapedChunk(items: seq<Item>, idx: nat, sc: Scope)
    requires Shaped(items, idx, sc) && idx < |items|
    ensures var c := ChunkAt(items, idx);
      && (c.Cluster? ==> OneCluster(items) && c.first == FirstTarget(items, 0) && c.end == LastTouched(items, |items|))
      && (c.Backward? || c.Leading? || c.Group? ==> Spanned(items))
  {
    hide InScope, LabelsIn, Spanned;
    ChunkKind(items, idx);
  }

  lemma {:induction false} LoopIsThere(items: seq<Item>, idx: nat) returns (last: nat)
    requires Spanned(items) && Distinct(LabelsIn(items)) && Ended(items, idx) && idx < |items|
    requires ChunkAt(items, idx).Backward?
    ensures LoopThere(items, idx, idx, last, ChunkAt(items, idx).end)
    ensures BodyAt(items, idx, items[idx + 1..ChunkAt(items, idx).end + 1])
  {
    hide LabelsIn, Nested, Laminar, Hollow, Lifted, ForwardStart, LeadingAt, ClusterAt;
    var end;
    last, end := LoopSpan(items, idx);
    if LoopInBlock(items, idx, last) {
      var g: nat, q: nat :| g <= idx && last < q && Jumps(items, g, q);
      SpanStarts(items, idx, g, q);
    }
  }

  lemma {:induction false} EnteredIsThere(items: seq<Item>, idx: nat) returns (last: nat)
    requires Spanned(items) && Distinct(LabelsIn(items)) && Ended(items, idx) && idx < |items|
    requires ChunkAt(items, idx).Leading?
    ensures SkipsAt(items, idx)
    ensures LoopThere(items, idx, idx + 1, last, ChunkAt(items, idx).end)
    ensures BodyAt(items, idx + 1, items[idx + 2..ChunkAt(items, idx).end + 1])
  {
    hide LabelsIn, Nested, Hollow, Lifted, ForwardStart, ClusterAt;
    var end;
    last, end := LoopSpan(items, idx + 1);
    var q :| idx + 1 <= q <= end && q < |items| && items[q].lab == Some(items[idx].stmt.lab);
    assert Jumps(items, idx, q) && Jumps(items, last, idx + 1);
    assert q <= last;
    assert q == idx + 2;
    if LoopInBlock(items, idx + 1, last) { HollowAt(items, idx + 1, last, idx, q); }
  }

  lemma {:induction false} PlainEnds(items: seq<Item>, idx: nat, sc: Scope)
    requires Shaped(items, idx, sc) && idx < |items| && ChunkAt(items, idx) == Plain
    ensures !OwnGotoAt(items, idx) && !TargetAt(items, idx) && Ended(items, idx + 1)
  {
    hide InScope, LabelsIn, BackwardEnd, Spanned, FirstOwnGoto, FirstTarget, LastTouched, ForwardStart;
    if JumpsBack(items) { ClusterKind(items, idx); }
    JumpsOwn(items, idx);
    if !OneCluster(items) {
      forall p: nat ensures !Jumps(items, idx, p) { if Jumps(items, idx, p) { PlainHolds(items, idx, p); } }
      forall g: nat ensures !Jumps(items, g, idx) { if Jumps(items, g, idx) { PlainTargets(items, idx, g); } }
    }
  }

  /** A statement with a goto of the list begins a chunk of its own. */
  lemma {:induction false} PlainHolds(items: seq<Item>, idx: nat, p: nat)
    requires Spanned(items) && Distinct(LabelsIn(items)) && Ended(items, idx) && idx < |items| && Jumps(items, idx, p)
    ensures ChunkAt(items, idx) != Plain
  {
    hide LabelsIn, BackwardEnd, Nested, Hollow, Lifted, Laminar;
    if p == idx {
      TargetIsBackward(items, idx, idx);
    } else {
      SpanStarts(items, idx, idx, p);
      assert ForwardStart(items, p) == Some(idx);
    }
  }

  lemma {:induction false} PlainTargets(items: seq<Item>, idx: nat, g: nat)
    requires Ended(items, idx) && idx < |items| && Jumps(items, g, idx)
    ensures ChunkAt(items, idx) != Plain
  {
    hide BackwardEnd;
    TargetIsBackward(items, idx, g);
  }

  lemma {:induction false} ClusterScoped(items: seq<Item>, sc: Scope, i: nat, first: nat, end: nat)
    requires OneCluster(items) && first == FirstTarget(items, 0) && end == LastTouched(items, |items|)
    requires FirstOwnGoto(items, 0) <= i && forall k :: 0 <= k < |items| ==> InScope(items, k, sc)
    ensures ScopedRange(items, i, first, end, InMachine(sc, LabelsBetween(items, first, end)))
    decreases |items| - i
  {
    hide ScopedItem, Scoped, InScope, OneCluster;
    if i <= end {
      var m := InMachine(sc, LabelsBetween(items, first, end));
      ClusterGoes(items, i, m.machine + m.open);
      assert Fits(items, i, sc, m) by { assert MachineHas(items, i, Anywhere); }
      if i < first {
        ItemScoped(items, i, sc, m);
      } else {
        assert LosesLabel(items, i) by { assert MachineHas(items, i, Unlabelled); }
        BareScoped(items, i, sc, None, m);
      }
      ClusterScoped(items, sc, i + 1, first, end);
    }
  }

  lemma {:induction false} ClusterGoes(items: seq<Item>, k: nat, ends: set<Label>)
    requires k < |items| && LastTouched(items, |items|) >= 0
    requires LabelsBetween(items, FirstTarget(items, 0), LastTouched(items, |items|)) <= ends
    ensures GoesTo(items, k, ends)
  {
    forall l | l in GotosOf(items[k].stmt) && l in Targeted(items) ensures l in ends {
      var p := HoldsGoto(items, k, l);
      assert FirstTarget(items, 0) <= p <= LastTouched(items, |items|);
      assert l in LabelsBetween(items, FirstTarget(items, 0), LastTouched(items, |items|));
    }
  }

  lemma {:induction false} ClusterEnds(items: seq<Item>)
    requires LastTouched(items, |items|) >= 0
    ensures Ended(items, LastTouched(items, |items|) + 1)
  {
    forall p: nat, g: nat | Jumps(items, g, p)
      ensures p < LastTouched(items, |items|) + 1 && g < LastTouched(items, |items|) + 1
    {
      JumpsOwn(items, p);
      JumpsOwn(items, g);
    }
  }

  // ----- the body of a loop -----

  /** The piece of a list behind the label of a loop is a list whose loops and blocks do not cross, with
      its statements in the scope inside the loop. */
  lemma {:induction false} LoopShape(items: seq<Item>, idx: nat, sc: Scope, p: nat, last: nat, end: nat)
    requires Shaped(items, idx, sc) && LoopThere(items, idx, p, last, end) && BodyAt(items, p, items[p + 1..end + 1])
    ensures Shaped(items[p + 1..end + 1], 0, InLoop(sc, items[p].lab.value))
  {
    hide InScope, Standing, LabelsIn, Jumps, Spanned, BodyAt, NewLabels, OneCluster;
    var b, seg := InLoop(sc, items[p].lab.value), items[p + 1..end + 1];
    SliceLabels(items, p + 1, end + 1);
    DistinctBelow(LabelsIn(seg), LabelsIn(items));
    StartsStanding(seg);
    LoopEncloses(items, idx, p, last, end);
    BodySpanned(items, p + 1, end + 1);
    PieceNewLabels(items, p, end, sc);
    forall k | 0 <= k < |seg| ensures InScope(seg, k, b) { LoopInScope(items, idx, sc, p, last, end, seg, k); }
  }

  lemma {:induction false} PieceNewLabels(items: seq<Item>, idx: nat, end: nat, sc: Scope)
    requires idx <= end < |items| && items[idx].lab.Some? && Distinct(LabelsIn(items)) && NewLabels(LabelsIn(items), sc)
    ensures NewLabels(LabelsIn(items[idx + 1..end + 1]), InLoop(sc, items[idx].lab.value))
  {
    hide LabelsIn;
    var l, labels := items[idx].lab.value, LabelsIn(items[idx + 1..end + 1]);
    TailLabels(items, idx, end + 1);
    assert labels + multiset{l} <= LabelsIn(items);
    OnceAtMost(labels, l, LabelsIn(items));
    forall k | k in labels ensures Unnamed(InLoop(sc, l), k) {
      assert k in LabelsIn(items);
      assert Unnamed(sc, k);
    }
  }

  /** A goto from the body goes to a label of the body or to the label of the loop. */
  lemma {:induction false} LoopGoes(items: seq<Item>, idx: nat, p: nat, last: nat, end: nat, seg: seq<Item>, k: nat)
    requires LoopThere(items, idx, p, last, end) && seg == items[p + 1..end + 1] && k < |seg|
    ensures GoesTo(items, p + 1 + k, {items[p].lab.value} + Targeted(seg))
  {
    hide LoopThere, Jumps, GotosOf, Targeted;
    assert idx <= p <= idx + 1 && p <= last <= end < |items| && items[p].lab.Some? by {
      LoopBounds(items, idx, p, last, end);
    }
    var i, l := p + 1 + k, items[p].lab.value;
    forall m | m in GotosOf(items[i].stmt) && m in Targeted(items) ensures m in {l} + Targeted(seg) {
      var q := HoldsGoto(items, i, m);
      LoopJump(items, idx, p, last, end, i, q);
      if q > p { BodyTarget(items, p, end, seg, k, q); }
    }
  }

  lemma {:induction false} BodyTarget(items: seq<Item>, p: nat, end: nat, seg: seq<Item>, k: nat, q: nat)
    requires p < q <= end < |items| && seg == items[p + 1..end + 1] && k < |seg| && Jumps(items, p + 1 + k, q)
    ensures items[q].lab.Some? && items[q].lab.value in Targeted(seg)
  {
    hide LabelsIn;
    SliceLabels(items, p + 1, end + 1);
    JumpsPart(items, p + 1, seg, k, q - (p + 1));
    JumpsOwn(seg, q - (p + 1));
    assert seg[q - (p + 1)] == items[q];
  }

  lemma {:induction false} LoopFits(items: seq<Item>, idx: nat, sc: Scope, p: nat, last: nat, end: nat,
                                    seg: seq<Item>, k: nat)
    requires LoopThere(items, idx, p, last, end) && PartAt(items, p + 1, seg) && seg == items[p + 1..end + 1]
    requires k < |seg|
    ensures Fits(items, p + 1 + k, sc, StmtScope(seg, k, InLoop(sc, items[p].lab.value)))
  {
    hide Targeted, LoopThere, GotosOf, PartAt, StmtScope;
    assert p <= last <= end < |items| && items[p].lab.Some? by { LoopBounds(items, idx, p, last, end); }
    LoopGoes(items, idx, p, last, end, seg, k);
    PartFits(items, p + 1, seg, k, sc, InLoop(sc, items[p].lab.value));
  }

  lemma {:induction false} LoopInScope(items: seq<Item>, idx: nat, sc: Scope, p: nat, last: nat, end: nat,
                                       seg: seq<Item>, k: nat)
    requires LoopThere(items, idx, p, last, end) && BodyAt(items, p, seg) && seg == items[p + 1..end + 1] && k < |seg|
    requires InScope(items, p + 1 + k, sc)
    ensures InScope(seg, k, InLoop(sc, items[p].lab.value))
  {
    hide Scoped, Targeted, LoopThere, GotosOf, InsideMachine, BodyAt, InScope, Jumps, Fits, StmtScope, LabelsIn;
    assert p <= last <= end < |items| && items[p].lab.Some? by { LoopBounds(items, idx, p, last, end); }
    var b := InLoop(sc, items[p].lab.value);
    SliceLabels(items, p + 1, end + 1);
    assert PartAt(items, p + 1, seg);
    LoopFits(items, idx, sc, p, last, end, seg, k);
    PartScoped(items, p + 1, seg, k, sc, b);
  }

  /** The statement of the loop's label goes to no label of the list but that one. */
  lemma {:induction false} HeadOfLoop(items: seq<Item>, idx: nat, sc: Scope, p: nat, last: nat, end: nat)
    requires LoopThere(items, idx, p, last, end) && InScope(items, p, sc)
    ensures Scoped(items[p].stmt, None, InLoop(sc, items[p].lab.value)) && TargetAt(items, p)
  {
    hide Scoped, InScope, LabelsIn, Spanned;
    var b := InLoop(sc, items[p].lab.value);
    JumpsOwn(items, p);
    forall l | l in GotosOf(items[p].stmt) && l in Targeted(items) ensures l in b.open {
      var q := HoldsGoto(items, p, l);
      LoopJump(items, idx, p, last, end, p, q);
    }
    BareScoped(items, p, sc, None, b);
  }

  /** Nor does it hold a labelled branch to it: the label is not in scope. */
  lemma {:induction false} HeadUnused(items: seq<Item>, idx: nat, sc: Scope)
    requires idx < |items| && TargetAt(items, idx) && Distinct(LabelsIn(items)) && NewLabels(LabelsIn(items), sc)
    requires InScope(items, idx, sc)
    ensures LabelUnused(items, idx)
  {
    hide Scoped, LabelsIn, LabelsOf, InsideMachine;
    var l := items[idx].lab.value;
    LabelOnce(items, idx, idx, l);
    BranchesInScope(items[idx].stmt, None, StmtScope(items, idx, sc), l);
  }

  // ----- the pieces of a group -----

  /** A piece of the group, from its start or a label of it up to the next label of it. */
  ghost predicate PieceThere(items: seq<Item>, idx: nat, last: nat, a: nat, b: nat, seg: seq<Item>)
  {
    && GroupThere(items, idx, last) && idx <= a < b <= last < |items| && InGroup(items, idx, last, b)
    && (forall t :: a < t < b ==> !InGroup(items, idx, last, t))
    && (if a == idx then seg == items[a..b] else InGroup(items, idx, last, a) && seg == Segment(items, a, b))
  }

  lemma {:induction false} GroupFacts(items: seq<Item>, idx: nat, last: nat)
    requires GroupThere(items, idx, last)
    ensures idx < last < |items| && InGroup(items, idx, last, last) && GroupClosed(items, idx, last)
    ensures forall t :: idx <= t <= last && ForwardStart(items, t).Some? ==> InGroup(items, idx, last, t)
    ensures ForwardStart(items, idx).None?
    ensures exists q :: 0 <= q < |items| && ForwardStart(items, q) == Some(idx)
  {
    hide LabelsIn, Spanned, LeadingAt, ClusterAt;
    forall t | idx <= t <= last && ForwardStart(items, t).Some? ensures InGroup(items, idx, last, t) && t > idx {
      assert Jumps(items, ForwardStart(items, t).value, t);
    }
    assert ForwardStart(items, LastStarting(items, idx, |items|).value) == Some(idx);
  }

  lemma {:induction false} PieceIsPart(items: seq<Item>, idx: nat, last: nat, a: nat, b: nat, seg: seq<Item>)
    requires PieceThere(items, idx, last, a, b, seg)
    ensures PartAt(items, a, seg) && Part(items, a, seg) && LabelsIn(seg) <= LabelsIn(items) && |seg| == b - a
    ensures forall k :: 0 <= k < |seg| ==> Taken(items, a, seg, k)
  {
    hide LabelsIn, GroupThere, ForwardStart;
    GroupFacts(items, idx, last);
    if a == idx { SliceLabels(items, a, b); } else { SegmentLabels(items, a, b); InGroupTarget(items, idx, last, a); }
    assert ForwardStart(items, b).Some?;
    assert PieceAt(items, a, b, seg);
  }

  lemma {:induction false} InGroupTarget(items: seq<Item>, idx: nat, last: nat, p: nat)
    requires InGroup(items, idx, last, p)
    ensures TargetAt(items, p) && p < |items| && items[p].lab.Some?
  {
  }

  /** The gotos back to the label stand in front of `b`. */
  ghost predicate BackBelow(items: seq<Item>, p: nat, b: nat)
  {
    forall far: nat :: Jumps(items, far, p) && p <= far ==> far < b
  }

  /** In a piece of the group there are only loops. */
  lemma {:induction false} PieceJump(items: seq<Item>, idx: nat, last: nat, a: nat, b: nat, seg: seq<Item>, g: nat,
                                     q: nat)
    requires PieceThere(items, idx, last, a, b, seg) && Jumps(seg, g, q)
    ensures q <= g < b - a && Jumps(items, a + g, a + q) && seg[q].lab == items[a + q].lab
    ensures BackBelow(items, a + q, b)
  {
    hide GroupThere, Jumps, InGroup;
    PieceIsPart(items, idx, last, a, b, seg);
    JumpsPart(items, a, seg, g, q);
    assert q < |seg| && g < |seg| && Jumps(items, a + g, a + q);
    assert seg[q].lab == items[a + q].lab by { LabelThere(seg, g, q); }
    GroupJump(items, idx, last, a + g, a + q);
    var p := a + q;
    forall far: nat | Jumps(items, far, p) && p <= far ensures far < b { GroupJump(items, idx, last, far, p); }
  }

  lemma {:induction false} LabelThere(seg: seq<Item>, g: nat, q: nat)
    requires Jumps(seg, g, q)
    ensures seg[q].lab.Some?
  {
  }

  lemma {:induction false} PieceSpanned(items: seq<Item>, idx: nat, last: nat, a: nat, b: nat, seg: seq<Item>)
    requires PieceThere(items, idx, last, a, b, seg)
    ensures Spanned(seg)
  {
    hide PieceThere, Jumps, GroupThere;
    assert Nested(items) && Part(items, a, seg) && |seg| == b - a by {
      PieceIsPart(items, idx, last, a, b, seg);
      PieceNested(items, idx, last, a, b, seg);
    }
    forall p: nat, g: nat | Jumps(seg, g, p) ensures p <= g { PieceJump(items, idx, last, a, b, seg, g, p); }
    forall p: nat, q: nat, g: nat, h: nat | p < q <= h && q <= g && Jumps(seg, h, p) && Jumps(seg, g, q)
      ensures EndsBehind(seg, p, g)
    {
      PieceJump(items, idx, last, a, b, seg, h, p);
      PieceJump(items, idx, last, a, b, seg, g, q);
      assert EndsBehind(items, a + p, a + g);
      var far: nat :| a + g <= far && Jumps(items, far, a + p);
      JumpsPart(items, a, seg, far - a, p);
    }
    BackwardsSpanned(seg);
  }

  lemma {:induction false} PieceNested(items: seq<Item>, idx: nat, last: nat, a: nat, b: nat, seg: seq<Item>)
    requires PieceThere(items, idx, last, a, b, seg)
    ensures Nested(items)
  {
  }

  lemma {:induction false} BackwardsSpanned(items: seq<Item>)
    requires Backwards(items) && Nested(items)
    ensures Spanned(items)
  {
    hide Jumps;
  }

  /** A goto of a piece goes to a label of the piece or of the group. */
  lemma {:induction false} PieceGoes(items: seq<Item>, idx: nat, last: nat, a: nat, b: nat, seg: seq<Item>, k: nat)
    requires PieceThere(items, idx, last, a, b, seg) && k < b - a
    ensures GoesTo(items, a + k, GroupLabels(items, idx, last) + Targeted(seg))
  {
    hide GroupThere, InGroup, Jumps, Targeted, GotosOf, LabelsIn, Taken, PartAt;
    PieceIsPart(items, idx, last, a, b, seg);
    forall l | l in GotosOf(items[a + k].stmt) && l in Targeted(items)
      ensures l in GroupLabels(items, idx, last) + Targeted(seg)
    {
      var q := HoldsGoto(items, a + k, l);
      GroupJump(items, idx, last, a + k, q);
      if q <= a + k { PieceBack(items, idx, last, a, b, seg, k, q); }
    }
  }

  lemma {:induction false} PieceBack(items: seq<Item>, idx: nat, last: nat, a: nat, b: nat, seg: seq<Item>, k: nat,
                                     q: nat)
    requires PieceThere(items, idx, last, a, b, seg) && k < b - a && q <= a + k && Jumps(items, a + k, q) && idx <= q
    requires forall t :: q <= t <= a + k ==> !InGroup(items, idx, last, t)
    ensures items[q].lab.Some? && items[q].lab.value in Targeted(seg)
  {
    hide GroupThere, InGroup, LabelsIn;
    PieceIsPart(items, idx, last, a, b, seg);
    assert a <= q && (a == idx || a < q);
    assert seg[q - a] == items[q];
    JumpsPart(items, a, seg, k, q - a);
    JumpsOwn(seg, q - a);
  }

  lemma {:induction false} PieceShape(items: seq<Item>, idx: nat, sc: Scope, last: nat, a: nat, b: nat, seg: seq<Item>)
    requires Shaped(items, idx, sc) && PieceThere(items, idx, last, a, b, seg)
    ensures Shaped(seg, 0, InBlocks(sc, items, idx, last, b)) && |seg| < |items|
  {
    hide InScope, Standing, LabelsIn, Jumps, Spanned, PieceThere, NewLabels, OneCluster, InBlocks, PartAt, Taken;
    var inner := InBlocks(sc, items, idx, last, b);
    PieceIsPart(items, idx, last, a, b, seg);
    DistinctBelow(LabelsIn(seg), LabelsIn(items));
    StartsStanding(seg);
    PieceSpanned(items, idx, last, a, b, seg);
    BlocksUnnamed(items, idx, last, a, b, seg, sc);
    forall k | 0 <= k < |seg| ensures InScope(seg, k, inner) {
      PieceGoes(items, idx, last, a, b, seg, k);
      PieceFits(items, idx, sc, last, a, b, seg, k);
      PartScoped(items, a, seg, k, sc, inner);
    }
    assert |seg| < |items| by { PieceShorter(items, idx, last, a, b, seg); }
  }

  lemma {:induction false} PieceShorter(items: seq<Item>, idx: nat, last: nat, a: nat, b: nat, seg: seq<Item>)
    requires PieceThere(items, idx, last, a, b, seg)
    ensures |seg| == b - a && a < b < |items|
  {
  }

  lemma {:induction false} PieceFits(items: seq<Item>, idx: nat, sc: Scope, last: nat, a: nat, b: nat, seg: seq<Item>,
                                     k: nat)
    requires PieceThere(items, idx, last, a, b, seg) && k < b - a
    ensures Fits(items, a + k, sc, StmtScope(seg, k, InBlocks(sc, items, idx, last, b)))
  {
    hide PieceThere, GroupLabels, BlocksFrom, Targeted, GotosOf, StmtScope, PartAt;
    PieceIsPart(items, idx, last, a, b, seg);
    PieceGoes(items, idx, last, a, b, seg, k);
    PartFits(items, a, seg, k, sc, InBlocks(sc, items, idx, last, b));
  }

  /** The labels of the blocks around a piece are not labels of the piece. */
  lemma {:induction false} BlocksUnnamed(items: seq<Item>, idx: nat, last: nat, a: nat, b: nat, seg: seq<Item>,
                                         sc: Scope)
    requires PieceThere(items, idx, last, a, b, seg) && Distinct(LabelsIn(items)) && NewLabels(LabelsIn(items), sc)
    ensures NewLabels(LabelsIn(seg), InBlocks(sc, items, idx, last, b))
  {
    hide LabelsIn, GroupThere, ForwardStart;
    PieceIsPart(items, idx, last, a, b, seg);
    forall l | l in LabelsIn(seg) ensures Unnamed(InBlocks(sc, items, idx, last, b), l) {
      forall p | b <= p < |items| && InGroup(items, idx, last, p) ensures items[p].lab.value != l {
        LabelBehind(items, a, b, seg, p);
      }
      assert l in LabelsIn(items);
    }
  }

  lemma {:induction false} LabelBehind(items: seq<Item>, a: nat, b: nat, seg: seq<Item>, p: nat)
    requires a < b <= |items| && p < |items| && (p < a || b <= p) && items[p].lab.Some? && Distinct(LabelsIn(items))
    requires seg == items[a..b] || seg == Segment(items, a, b)
    ensures items[p].lab.value !in LabelsIn(seg)
  {
    hide LabelsIn, LabelsOf;
    var l := items[p].lab.value;
    if l in LabelsIn(seg) {
      var k := LabelIn(seg, l);
      LabelOnce(items, p, a + k, l);
    }
  }

  /** A label of a list is declared at a statement or inside one. */
  lemma {:induction false} LabelIn(items: seq<Item>, l: Label) returns (k: nat)
    requires l in LabelsIn(items)
    ensures k < |items| && (items[k].lab == Some(l) || l in LabelsOf(items[k].stmt))
  {
    hide LabelsOf;
    if l in ItemLabels(items[0]) { return 0; }
    k := LabelIn(items[1..], l);
    k := k + 1;
  }

  // ----- lists -----

  /** What the traversal does with its statement, machine, loop or group. */
  lemma {:induction false} ShapedScoped(items: seq<Item>, idx: nat, sc: Scope, f: Flow)
    requires Shaped(items, idx, sc)
    ensures ScopedFrom(items, idx, sc)
    ensures Lasting(items, f) ==> FaithfulFrom(f, items, idx)
    decreases |items|, if idx < |items| then |items| - idx else 0, 2
  {
    hide InScope, OneShape, Standing, LabelsIn, Ended, ChunkAt, ScopedChunk, FaithfulChunk, NewLabels, Lasting;
    if idx < |items| {
      ShapedChunk(items, idx, sc);
      StandingNext(items, idx);
      match ChunkAt(items, idx) {
        case Plain => PlainShaped(items, idx, sc, f);
        case Cluster(_, _) => ClusterShaped(items, idx, sc, f);
        case Backward(_) => BackwardShaped(items, idx, sc, f);
        case Leading(_) => LeadingShaped(items, idx, sc, f);
        case Group(_) => GroupShaped(items, idx, sc, f);
      }
      ShapedScoped(items, NextIdx(ChunkAt(items, idx), idx), sc, f);
      OneMore(items, idx, sc, f);
    }
  }

  lemma {:induction false} OneMore(items: seq<Item>, idx: nat, sc: Scope, f: Flow)
    requires idx < |items|
    ensures ScopedChunk(items, idx, sc) && ScopedFrom(items, NextIdx(ChunkAt(items, idx), idx), sc) ==>
      ScopedFrom(items, idx, sc)
    ensures FaithfulChunk(f, items, idx) && FaithfulFrom(f, items, NextIdx(ChunkAt(items, idx), idx)) ==>
      FaithfulFrom(f, items, idx)
  {
    hide ScopedChunk, FaithfulChunk, ChunkAt;
  }

  lemma {:induction false} PlainShaped(items: seq<Item>, idx: nat, sc: Scope, f: Flow)
    requires Shaped(items, idx, sc) && idx < |items| && ChunkAt(items, idx) == Plain
    ensures Ended(items, NextIdx(ChunkAt(items, idx), idx)) && ScopedChunk(items, idx, sc)
    ensures Lasting(items, f) ==> FaithfulChunk(f, items, idx)
  {
    hide ScopedItem, Scoped, InScope, OneShape, Standing, Faithful, InsideMachine;
    PlainEnds(items, idx, sc);
    NoOwnGoesTo(items, idx);
    ItemScoped(items, idx, sc, sc);
  }

  lemma {:induction false} ClusterShaped(items: seq<Item>, idx: nat, sc: Scope, f: Flow)
    requires Shaped(items, idx, sc) && idx < |items| && ChunkAt(items, idx).Cluster? && OneCluster(items)
    requires var c := ChunkAt(items, idx); c.first == FirstTarget(items, 0) && c.end == LastTouched(items, |items|)
    ensures Ended(items, NextIdx(ChunkAt(items, idx), idx)) && ScopedChunk(items, idx, sc)
    ensures Lasting(items, f) ==> FaithfulChunk(f, items, idx)
  {
    hide ScopedItem, Scoped, InScope, OneShape, Standing, Faithful, Survives, FaithfulRange, ScopedRange;
    var c := ChunkAt(items, idx);
    ClusterEnds(items);
    ClusterScoped(items, sc, idx, c.first, c.end);
    if Lasting(items, f) {
      RangeFaithful(f, items, idx, c.end);
      forall k | idx <= k <= c.end ensures Survives(f, items[k].stmt) { assert MachineHas(items, k, Anywhere); }
      forall k | c.first <= k <= c.end && idx < c.first ensures items[k].lab != Some(ENTRY) {
        assert MachineHas(items, k, BehindEntry);
      }
    }
  }

  lemma {:induction false} RangeFaithful(f: Flow, items: seq<Item>, i: nat, end: nat)
    requires end < |items| && forall k :: 0 <= k < |items| ==> Faithful(f, items[k].stmt)
    ensures FaithfulRange(f, items, i, end)
    decreases |items| - i
  {
    hide Faithful;
    if i <= end { RangeFaithful(f, items, i + 1, end); }
  }

  lemma {:induction false} BackwardShaped(items: seq<Item>, idx: nat, sc: Scope, f: Flow)
    requires Shaped(items, idx, sc) && idx < |items| && ChunkAt(items, idx).Backward? && Spanned(items)
    ensures Ended(items, NextIdx(ChunkAt(items, idx), idx)) && ScopedChunk(items, idx, sc)
    ensures Lasting(items, f) ==> FaithfulChunk(f, items, idx)
    decreases |items|, |items| - idx, 1
  {
    hide Shaped, Lasting, LoopThere, ScopedFrom, FaithfulFrom, Scoped, Faithful, LabelsIn, Ended, Spanned, SurvivesIn;
    assert Distinct(LabelsIn(items)) && Ended(items, idx) by { ShapedEnded(items, idx, sc); }
    var last := LoopIsThere(items, idx);
    LoopShaped(items, idx, sc, f, idx, last, ChunkAt(items, idx).end);
  }

  lemma {:induction false} LeadingShaped(items: seq<Item>, idx: nat, sc: Scope, f: Flow)
    requires Shaped(items, idx, sc) && idx < |items| && ChunkAt(items, idx).Leading? && Spanned(items)
    ensures Ended(items, NextIdx(ChunkAt(items, idx), idx)) && ScopedChunk(items, idx, sc)
    ensures Lasting(items, f) ==> FaithfulChunk(f, items, idx)
    decreases |items|, |items| - idx, 1
  {
    hide Shaped, Lasting, LoopThere, ScopedFrom, FaithfulFrom, Scoped, Faithful, LabelsIn, Ended, Spanned, SurvivesIn;
    assert Distinct(LabelsIn(items)) && Ended(items, idx) by { ShapedEnded(items, idx, sc); }
    var last := EnteredIsThere(items, idx);
    LoopShaped(items, idx, sc, f, idx + 1, last, ChunkAt(items, idx).end);
  }

  lemma {:induction false} ShapedEnded(items: seq<Item>, idx: nat, sc: Scope)
    requires Shaped(items, idx, sc)
    ensures Distinct(LabelsIn(items)) && Ended(items, idx)
  {
  }

  /** The statement at the label of a loop, and the loop's body, which is a list of the same kind. */
  lemma {:induction false} LoopShaped(items: seq<Item>, idx: nat, sc: Scope, f: Flow, p: nat, last: nat, end: nat)
    requires Shaped(items, idx, sc) && LoopThere(items, idx, p, last, end) && idx < |items|
    requires p <= end < |items| && items[p].lab.Some? && BodyAt(items, p, items[p + 1..end + 1])
    ensures Ended(items, end + 1) && ScopedLoop(items, p, end, InLoop(sc, items[p].lab.value))
    ensures Lasting(items, f) ==>
      FaithfulLoop(f, items, p, end) && SurvivesIn(f, items, p, end) && LabelUnused(items, p)
    decreases |items|, |items| - idx, 0
  {
    hide Scoped, ScopedFrom, FaithfulFrom, InScope, OneShape, Standing, Faithful, LabelsIn, BodyAt, Ended, EntryFree,
         Survives, Repeats, LoopThere;
    var l, seg := items[p].lab.value, items[p + 1..end + 1];
    LoopEncloses(items, idx, p, last, end);
    LoopShape(items, idx, sc, p, last, end);
    ShapedScoped(seg, 0, InLoop(sc, l), f);
    HeadOfLoop(items, idx, sc, p, last, end);
    HeadUnused(items, p, sc);
    if Lasting(items, f) {
      SliceLabels(items, p + 1, end + 1);
      assert PartAt(items, p + 1, seg);
      PartLasting(items, p + 1, seg, f);
      assert FaithfulFrom(f, seg, 0);
      forall k | p <= k <= end ensures Survives(f, items[k].stmt) { LoopSurvives(items, idx, p, last, end, f, k); }
    }
  }

  lemma {:induction false} LoopSurvives(items: seq<Item>, idx: nat, p: nat, last: nat, end: nat, f: Flow, k: nat)
    requires LoopThere(items, idx, p, last, end) && Lasting(items, f) && p <= k <= end
    ensures k < |items| && Survives(f, items[k].stmt)
  {
    hide Spanned, LabelsIn, InsideMachine, Faithful, EntryFree, Ended, LoopInBlock;
    assert k <= last ==> Repeats(items, k);
  }

  lemma {:induction false} GroupShaped(items: seq<Item>, idx: nat, sc: Scope, f: Flow)
    requires Shaped(items, idx, sc) && idx < |items| && ChunkAt(items, idx).Group? && Spanned(items)
    ensures Ended(items, NextIdx(ChunkAt(items, idx), idx)) && ScopedChunk(items, idx, sc)
    ensures Lasting(items, f) ==> FaithfulChunk(f, items, idx)
    decreases |items|, |items| - idx, 0
  {
    hide Scoped, ScopedFrom, FaithfulFrom, Shaped, Faithful, LabelsIn, InGroup, GroupClosed, ScopedNest, FaithfulNest,
         Lasting, Ended, Spanned, LeadingAt, ClusterAt;
    var last := ChunkAt(items, idx).last;
    assert GroupThere(items, idx, last) by { ShapedEnded(items, idx, sc); }
    GroupFacts(items, idx, last);
    var p := NextInGroup(items, idx, last, idx + 1);
    GroupEnds(items, idx, last, sc);
    assert PieceThere(items, idx, last, idx, p, items[idx..p]);
    PieceShaped(items, idx, sc, last, idx, p, items[idx..p], f);
    NestShaped(items, idx, sc, last, p, f);
    if Lasting(items, f) { LastingAt(items, last, f); }
  }

  lemma {:induction false} LastingAt(items: seq<Item>, k: nat, f: Flow)
    requires Lasting(items, f) && k < |items|
    ensures Faithful(f, items[k].stmt)
  {
  }

  /** The statement of the last label holds no goto of the list. */
  lemma {:induction false} GroupEnds(items: seq<Item>, idx: nat, last: nat, sc: Scope)
    requires Shaped(items, idx, sc) && GroupThere(items, idx, last) && idx < last < |items|
    ensures Ended(items, last + 1) && Scoped(items[last].stmt, None, sc)
  {
    hide GroupThere, LabelsIn, Scoped, InScope, OneShape, InsideMachine;
    forall p: nat, g: nat | Jumps(items, g, p) ensures (p < last + 1 <==> g < last + 1) && g != last {
      assert p < idx <==> g < idx;
      if idx <= g <= last || idx <= p <= last { GroupJump(items, idx, last, g, p); }
    }
    JumpsOwn(items, last);
    NoOwnGoesTo(items, last);
    assert TargetAt(items, last) by {
      GroupFacts(items, idx, last);
      InGroupTarget(items, idx, last, last);
    }
    BareScoped(items, last, sc, None, sc);
  }

  lemma {:induction false} PieceShaped(items: seq<Item>, idx: nat, sc: Scope, last: nat, a: nat, b: nat,
                                       seg: seq<Item>, f: Flow)
    requires Shaped(items, idx, sc) && PieceThere(items, idx, last, a, b, seg) && idx < |items|
    ensures ScopedFrom(seg, 0, InBlocks(sc, items, idx, last, b)) && (Lasting(items, f) ==> FaithfulFrom(f, seg, 0))
    decreases |items|, 0, 0
  {
    hide Shaped, PieceThere, Lasting, ScopedFrom, FaithfulFrom, LabelsIn, Taken, PartAt, InBlocks;
    PieceShape(items, idx, sc, last, a, b, seg);
    ShapedScoped(seg, 0, InBlocks(sc, items, idx, last, b), f);
    PieceIsPart(items, idx, last, a, b, seg);
    if Lasting(items, f) { PartLasting(items, a, seg, f); }
  }

  lemma {:induction false} NestShaped(items: seq<Item>, idx: nat, sc: Scope, last: nat, p: nat, f: Flow)
    requires Shaped(items, idx, sc) && GroupThere(items, idx, last) && idx < p <= last < |items|
    requires InGroup(items, idx, last, p) && InGroup(items, idx, last, last)
    ensures ScopedNest(items, idx, last, p, sc)
    ensures Lasting(items, f) ==> FaithfulNest(f, items, idx, last, p)
    decreases |items|, 0, last - p + 1
  {
    hide Scoped, ScopedFrom, FaithfulFrom, Shaped, Faithful, InGroup, GroupThere, Lasting, InBlocks;
    if p < last {
      var q := NextInGroup(items, idx, last, p + 1);
      assert PieceThere(items, idx, last, p, q, Segment(items, p, q));
      PieceShaped(items, idx, sc, last, p, q, Segment(items, p, q), f);
      NestShaped(items, idx, sc, last, q, f);
    }
  }

  /** Every list of one shape is in scope when its statements are, and faithful when they are and
      its plain branches leave the added loops. */
  lemma {:induction false} OneShapeScoped(items: seq<Item>, sc: Scope, f: Flow)
    requires Distinct(LabelsIn(items)) && NewLabels(LabelsIn(items), sc) && OneShape(items)
    requires forall k :: 0 <= k < |items| ==> InScope(items, k, sc)
    ensures ScopedIn(items, sc)
    ensures Lasting(items, f) ==> FaithfulIn(f, items)
  {
    hide InScope, OneShape, LabelsIn, ScopedFrom, FaithfulFrom, Lasting;
    StartsStanding(items);
    ShapedScoped(items, 0, sc, f);
  }

  // ----- lists that fall into parts -----

  /** No goto crosses the ends of the part, and it has either loops only, nested or disjoint, or blocks only. */
  ghost predicate OneKind(items: seq<Item>, a: nat, b: nat)
  {
    && Ended(items, a) && Ended(items, b)
    && ((&& (forall g: nat, p: nat :: Jumps(items, g, p) && a <= g < b ==> p <= g)
         && (forall p: nat, q: nat, g: nat, h: nat ::
               a <= p < q <= h < b && Jumps(items, h, p) && Jumps(items, g, q) ==> EndsBehind(items, p, g)))
        || (&& (forall g: nat, p: nat :: Jumps(items, g, p) && a <= g < b ==> g < p)
            && (forall h: nat, p: nat, q: nat ::
                  a <= h < p < q < b && Jumps(items, h, p) && Jumps(items, p, q) ==> Covered(items, p))))
  }

  ghost predicate Divided(items: seq<Item>, cuts: seq<nat>)
  {
    && |cuts| > 0 && cuts[0] == 0 && cuts[|cuts| - 1] == |items|
    && forall i :: 0 < i < |cuts| ==> cuts[i - 1] <= cuts[i] && OneKind(items, cuts[i - 1], cuts[i])
  }

  lemma {:induction false} PartWith(items: seq<Item>, cuts: seq<nat>, x: nat, n: nat) returns (a: nat, b: nat)
    requires 0 < n <= |cuts| && cuts[0] == 0 && x < cuts[n - 1]
    requires forall i :: 0 < i < |cuts| ==> cuts[i - 1] <= cuts[i] && OneKind(items, cuts[i - 1], cuts[i])
    ensures a <= x < b && OneKind(items, a, b)
  {
    hide OneKind;
    if cuts[n - 2] <= x { a, b := cuts[n - 2], cuts[n - 1]; } else { a, b := PartWith(items, cuts, x, n - 1); }
  }

  /** A list of consecutive parts that no goto crosses, each with loops only or with blocks only, has one
      of the shapes. */
  lemma {:induction false} DividedSpanned(items: seq<Item>, cuts: seq<nat>)
    requires Divided(items, cuts)
    ensures Spanned(items)
  {
    hide Jumps, OneKind, EndsBehind, Covered;
    forall p: nat, h: nat, g: nat, q: nat | Jumps(items, h, p) && Jumps(items, g, q)
      ensures p < q <= h && q <= g ==> EndsBehind(items, p, g)
      ensures p <= h && g < q ==> h < g || q < p
      ensures h < p < q && g == p ==> Covered(items, p)
    {
      assert p < |items| && h < |items| by { JumpsIn(items, h, p); }
      var a, b := PartWith(items, cuts, p, |cuts|);
      KindOfPair(items, a, b, p, h, g, q);
    }
  }

  lemma {:induction false} KindOfPair(items: seq<Item>, a: nat, b: nat, p: nat, h: nat, g: nat, q: nat)
    requires OneKind(items, a, b) && a <= p < b && Jumps(items, h, p) && Jumps(items, g, q)
    ensures p < q <= h && q <= g ==> EndsBehind(items, p, g)
    ensures p <= h && g < q ==> h < g || q < p
    ensures h < p < q && g == p ==> Covered(items, p)
  {
    hide Jumps, EndsBehind, Covered;
  }

  // ----- loops with a name of their own -----

  lemma {:induction false} JumpIsBackward(items: seq<Item>, h: nat, p: nat)
    requires p <= h && Jumps(items, h, p)
    ensures NeedsLoopLabel(items)
  {
    TargetIsBackward(items, p, h);
  }

  /** Parts that are lowered as lists of their own begin at this position. */
  lemma {:induction false} PartOf(items: seq<Item>, a: nat, seg: seq<Item>)
    requires PartAt(items, a, seg)
    ensures Part(items, a, seg)
  {
    hide LabelsIn, ForwardStart, LastBackward;
    if a > 0 && BodyAt(items, a - 1, seg) {
      SliceLabels(items, a, a + |seg|);
    } else if ForwardStart(items, a).Some? {
      SegmentLabels(items, a, a + |seg|);
    } else {
      SliceLabels(items, a, a + |seg|);
    }
  }

  /** What may become part of a loop makes the compiler give a for loop around it a name. */
  lemma {:induction false} MachineNeedsName(items: seq<Item>, k: nat)
    requires InsideMachine(items, k, Anywhere)
    ensures exists p: nat, h: nat :: p <= h && Jumps(items, h, p)
    decreases |items|
  {
    hide PartAt;
    if OneCluster(items) {
      var p, g :| 0 <= p < g < |items| && items[p].lab.Some? && GotoAt(items, g, items[p].lab.value);
      assert Jumps(items, g, p);
    } else {
      var a: nat, seg: seq<Item> :| a <= k && PartAt(items, a, seg) && InsideMachine(seg, k - a, Anywhere);
      assert |seg| < |items| by { PartShorter(items, a, seg); }
      MachineNeedsName(seg, k - a);
      var p: nat, h: nat :| p <= h && Jumps(seg, h, p);
      PartOf(items, a, seg);
      JumpsPart(items, a, seg, h, p);
    }
  }

  /** Plain breaks and continues in the body of a for statement that is not in a switch always leave the
      loops that the lowering adds there. */
  lemma {:induction false} ForBodySurvives(body: seq<Item>, k: nat, f: Flow)
    requires k < |body| && Repeats(body, k) && !f.inSwitch
    ensures Survives(ForFlow(f, NeedsLoopLabel(body)), body[k].stmt)
  {
    hide InsideMachine, Jumps, NeedsLoopLabel, FreeBreak, FreeContinue;
    if InsideMachine(body, k, Anywhere) { MachineNeedsName(body, k); }
    var p: nat, h: nat :| p <= h && Jumps(body, h, p);
    JumpIsBackward(body, h, p);
  }

  // ----- all lists of a function -----

  /** Every list inside the statement has one of the shapes, and the branches between them stand in
      what they name. */
  ghost predicate Shapely(s: Stmt, own: Option<Label>, sc: Scope, f: Flow)
    decreases s, 2
  {
    match s
    case Block(body) => ShapelyIn(body, sc, f)
    case If(_, thn, els) => ShapelyIn(thn, sc, f) && ShapelyIn(els, sc, f)
    case For(ranged, _, _, _, body) =>
      ShapelyIn(body, sc.(loops := sc.loops + OwnLabels(own), breakable := true, loop := true),
                ForFlow(f, !ranged && NeedsLoopLabel(body)))
    case Switch(_, clauses) =>
      forall k :: 0 <= k < |clauses| ==> ShapelyIn(clauses[k].body, sc.(breakable := true), ClauseFlow(f))
    case RangeFunc(_, _, body) => ShapelyIn(body, CALLBACK, RangeFlow(f))
    case _ => Scoped(s, own, sc)
  }

  /** The list has one of the shapes, and so have those inside it; in the loops that the lowering
      adds, the plain breaks and continues that leave a statement are emitted as named branches or
      returns. */
  ghost predicate ShapelyIn(items: seq<Item>, sc: Scope, f: Flow)
    decreases items, 0
  {
    && OneShape(items) && EntryFree(items)
    && (forall k :: 0 <= k < |items| && Repeats(items, k) ==> Survives(f, items[k].stmt))
    && forall k :: 0 <= k < |items| ==> ShapelyItem(items[k], LosesLabel(items, k), StmtScope(items, k, sc), f)
  }

  /** The statement, which the lowering may take its label away. */
  ghost predicate ShapelyItem(it: Item, loses: bool, sc: Scope, f: Flow)
    decreases it, 3
  {
    if loses then Shapely(it.stmt, None, sc, f)
    else Shapely(it.stmt, it.lab, sc.(breaks := sc.breaks + OwnLabels(it.lab)), f)
  }

  lemma {:induction false} ShapelyScoped(s: Stmt, own: Option<Label>, sc: Scope, f: Flow)
    requires Shapely(s, own, sc, f) && Distinct(LabelsOf(s)) && NewLabels(LabelsOf(s), sc)
    requires own.Some? ==> own.value !in LabelsOf(s)
    ensures Scoped(s, own, sc) && Faithful(f, s)
    decreases StmtSize(s), 0
  {
    hide ScopedFrom, FaithfulFrom, ShapelyIn, LabelsIn, NeedsLoopLabel;
    match s
    case Block(body) => ListShapely(body, sc, f);
    case If(_, thn, els) =>
      DistinctBelow(LabelsIn(thn), LabelsOf(s));
      DistinctBelow(LabelsIn(els), LabelsOf(s));
      ListShapely(thn, sc, f);
      ListShapely(els, sc, f);
    case For(ranged, _, _, _, body) =>
      ListShapely(body, sc.(loops := sc.loops + OwnLabels(own), breakable := true, loop := true),
                  ForFlow(f, !ranged && NeedsLoopLabel(body)));
    case Switch(_, clauses) => ClausesShapely(clauses, sc.(breakable := true), ClauseFlow(f));
    case RangeFunc(_, _, body) => ListShapely(body, CALLBACK, RangeFlow(f));
    case _ =>
  }

  lemma {:induction false} ClausesShapely(clauses: seq<Clause>, sc: Scope, f: Flow)
    requires forall k :: 0 <= k < |clauses| ==> ShapelyIn(clauses[k].body, sc, f)
    requires Distinct(LabelsInClauses(clauses)) && NewLabels(LabelsInClauses(clauses), sc)
    ensures ScopedClauses(clauses, sc) && FaithfulClauses(f, clauses)
    decreases ClausesSize(clauses), 0
  {
    hide ScopedFrom, FaithfulFrom, ShapelyIn, LabelsIn;
    if clauses != [] {
      DistinctBelow(LabelsIn(clauses[0].body), LabelsInClauses(clauses));
      DistinctBelow(LabelsInClauses(clauses[1..]), LabelsInClauses(clauses));
      ListShapely(clauses[0].body, sc, f);
      ClausesShapely(clauses[1..], sc, f);
    }
  }

  lemma {:induction false} ListShapely(items: seq<Item>, sc: Scope, f: Flow)
    requires ShapelyIn(items, sc, f) && Distinct(LabelsIn(items)) && NewLabels(LabelsIn(items), sc)
    ensures ScopedFrom(items, 0, sc) && FaithfulFrom(f, items, 0)
    decreases Size(items), 1
  {
    hide ScopedFrom, FaithfulFrom, LabelsIn, ShapelyItem, InScope, OneShape, EntryFree, Repeats, Survives,
         Faithful, Size;
    forall k | 0 <= k < |items| ensures InScope(items, k, sc) && Faithful(f, items[k].stmt) {
      SizeAt(items, k);
      ItemShapely(items, k, sc, f);
    }
    OneShapeScoped(items, sc, f);
  }

  lemma {:induction false} ItemShapely(items: seq<Item>, k: nat, sc: Scope, f: Flow)
    requires k < |items| && ShapelyItem(items[k], LosesLabel(items, k), StmtScope(items, k, sc), f)
    requires Distinct(LabelsIn(items)) && NewLabels(LabelsIn(items), sc)
    ensures InScope(items, k, sc) && Faithful(f, items[k].stmt)
    decreases StmtSize(items[k].stmt), 1
  {
    hide Scoped, Faithful, Shapely, LabelsIn, LabelsOf, LosesLabel, InsideMachine, Targeted;
    var s, lab, all := items[k].stmt, items[k].lab, StmtScope(items, k, sc);
    LabelsAt(items, k);
    assert LabelsOf(s) <= LabelsIn(items);
    DistinctBelow(LabelsOf(s), LabelsIn(items));
    if lab.Some? { LabelOnce(items, k, k, lab.value); }
    if LosesLabel(items, k) {
      ShapelyScoped(s, None, all, f);
    } else {
      ShapelyScoped(s, lab, all.(breaks := all.breaks + OwnLabels(lab)), f);
    }
  }
}
