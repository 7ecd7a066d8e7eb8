/** Where branches and gotos may stand, as a condition on the source alone. It follows the cut of
    each list into state machines, labelled loops and nested blocks. */
module Scopes {
  import opened GoSource
  import opened GotoAnalysis
  import opened Lowering
  import opened SourceChecks
  import opened Sublists

  /** What encloses a statement within its function body or callback: the labels that breaks and
      continues may name, whether a plain break or continue has a target, the labels of the
      innermost state machine, and the labels of the added loops and blocks. */
  datatype Scope = Scope(breaks: set<Label>, loops: set<Label>, breakable: bool, loop: bool, machine: set<Label>,
                         open: set<Label>)

  const TOP_SCOPE: Scope := Scope({}, {}, false, false, {}, {})
  const CALLBACK: Scope := Scope({}, {}, true, true, {}, {})

  function OwnLabels(own: Option<Label>): set<Label>
  {
    if own.Some? then {own.value} else {}
  }

  function InMachine(sc: Scope, labels: set<Label>): Scope
  {
    sc.(machine := labels, breakable := true, loop := true)
  }

  /** The added loop has the label, so that branches may name it as well. */
  function InLoop(sc: Scope, l: Label): Scope
  {
    sc.(breaks := sc.breaks + {l}, loops := sc.loops + {l}, open := sc.open + {l}, breakable := true, loop := true)
  }

  /** The labels of the blocks of a group that stand at `q` or behind. */
  function BlocksFrom(items: seq<Item>, start: nat, last: nat, q: nat): set<Label>
  {
    set p | q <= p < |items| && InGroup(items, start, last, p) :: items[p].lab.value
  }

  /** A piece of a group in front of `q` stands inside these blocks. */
  function InBlocks(sc: Scope, items: seq<Item>, start: nat, last: nat, q: nat): Scope
  {
    sc.(breaks := sc.breaks + BlocksFrom(items, start, last, q), open := sc.open + GroupLabels(items, start, last))
  }

  /** A goto stands inside the state machine, the loop or the block of its label; a break or
      continue inside what it names; and nothing leaves a range-over-func body. */
  predicate Scoped(s: Stmt, own: Option<Label>, sc: Scope)
    decreases StmtSize(s), 0, 0
  {
    match s
    case Break => sc.breakable
    case Continue => sc.loop
    case BreakTo(l) => l in sc.breaks
    case ContinueTo(l) => l in sc.loops
    case Goto(l) => l in sc.machine || l in sc.open
    case Block(body) => ScopedFrom(body, 0, sc)
    case If(_, thn, els) => ScopedFrom(thn, 0, sc) && ScopedFrom(els, 0, sc)
    case For(_, _, _, _, body) =>
      ScopedFrom(body, 0, sc.(loops := sc.loops + OwnLabels(own), breakable := true, loop := true))
    case Switch(_, clauses) => ScopedClauses(clauses, sc.(breakable := true))
    case RangeFunc(_, _, body) => ScopedFrom(body, 0, CALLBACK)
    case _ => true
  }

  predicate ScopedClauses(clauses: seq<Clause>, sc: Scope)
    decreases ClausesSize(clauses), 0, 0
  {
    clauses == [] || (ScopedFrom(clauses[0].body, 0, sc) && ScopedClauses(clauses[1..], sc))
  }

  predicate ScopedItem(it: Item, sc: Scope)
    decreases StmtSize(it.stmt), 1, 0
  {
    Scoped(it.stmt, it.lab, sc.(breaks := sc.breaks + OwnLabels(it.lab)))
  }

  predicate ScopedFrom(items: seq<Item>, idx: nat, sc: Scope)
    decreases Size(items), 3, if idx < |items| then |items| - idx else 0
  {
    idx >= |items| || (ScopedChunk(items, idx, sc) && ScopedFrom(items, NextIdx(ChunkAt(items, idx), idx), sc))
  }

  predicate ScopedChunk(items: seq<Item>, idx: nat, sc: Scope)
    requires idx < |items|
    decreases Size(items), 2, 0
  {
    SizeAt(items, idx);
    match ChunkAt(items, idx)
    case Plain => ScopedItem(items[idx], sc)
    case Cluster(first, end) => ScopedRange(items, idx, first, end, InMachine(sc, LabelsBetween(items, first, end)))
    case Leading(end) => ScopedLoop(items, idx + 1, end, InLoop(sc, items[idx + 1].lab.value))
    case Group(last) => ScopedGroup(items, idx, last, sc)
    case Backward(end) => ScopedLoop(items, idx, end, InLoop(sc, items[idx].lab.value))
  }

  /** The statements of a state machine: those from `first` on lose their labels. */
  predicate ScopedRange(items: seq<Item>, i: nat, first: nat, end: nat, sc: Scope)
    requires end < |items|
    decreases Size(items), 1, |items| - i
  {
    if i > end then true
    else
      SizeAt(items, i);
      (if i < first then ScopedItem(items[i], sc) else Scoped(items[i].stmt, None, sc)) &&
      ScopedRange(items, i + 1, first, end, sc)
  }

  predicate ScopedLoop(items: seq<Item>, p: nat, end: nat, sc: Scope)
    requires p <= end < |items|
    decreases Size(items), 1, 0
  {
    SizeAt(items, p);
    PartSize(items, p + 1, end + 1);
    Scoped(items[p].stmt, None, sc) && ScopedFrom(items[p + 1..end + 1], 0, sc)
  }

  predicate ScopedGroup(items: seq<Item>, start: nat, last: nat, sc: Scope)
    requires start < last < |items| && InGroup(items, start, last, last)
    decreases Size(items), 1, |items| + 1
  {
    var p := NextInGroup(items, start, last, start + 1);
    PartSize(items, start, p);
    SizeAt(items, last);
    && ScopedFrom(items[start..p], 0, InBlocks(sc, items, start, last, p))
    && ScopedNest(items, start, last, p, sc)
    && Scoped(items[last].stmt, None, sc)
  }

  predicate ScopedNest(items: seq<Item>, start: nat, last: nat, p: nat, sc: Scope)
    requires p <= last < |items| && InGroup(items, start, last, p) && InGroup(items, start, last, last)
    decreases Size(items), 1, |items| - p
  {
    if p == last then true
    else
      var q := NextInGroup(items, start, last, p + 1);
      SegmentSize(items, p, q);
      ScopedFrom(Segment(items, p, q), 0, InBlocks(sc, items, start, last, q)) && ScopedNest(items, start, last, q, sc)
  }

  predicate ScopedIn(items: seq<Item>, sc: Scope)
  {
    ScopedFrom(items, 0, sc)
  }

  // ----- pieces of a state machine -----

  /** A piece without gotos to its own labels is scoped statement by statement. */
  lemma {:induction false} PieceRange(items: seq<Item>, a: nat, seg: seq<Item>, k: nat, first: nat, sc: Scope)
    requires NoOwnGotos(seg) && Part(items, a, seg) && k <= |seg| && a + |seg| <= |items| && |seg| > 0
    requires forall i :: 0 <= i < |seg| ==> if a + i < first then seg[i] == items[a + i] else seg[i].lab.None?
    ensures ScopedFrom(seg, k, sc) <==> ScopedRange(items, a + k, first, a + |seg| - 1, sc)
    decreases |seg| - k
  {
    hide ScopedItem, Scoped, NoOwnGotos, ChunkAt, ScopedLoop, ScopedGroup;
    if k < |seg| {
      NoOwnPlain(seg, k);
      PieceRange(items, a, seg, k + 1, first, sc);
      if a + k >= first { BareItem(seg[k], sc); }
    }
  }

  lemma {:induction false} BareItem(it: Item, sc: Scope)
    requires it.lab.None?
    ensures ScopedItem(it, sc) <==> Scoped(it.stmt, None, sc)
  {
    assert sc.(breaks := sc.breaks + OwnLabels(it.lab)) == sc;
  }

  lemma {:induction false} RangeSplits(items: seq<Item>, i: nat, j: nat, first: nat, end: nat, sc: Scope)
    requires i <= j <= end + 1 <= |items| && j > 0
    ensures ScopedRange(items, i, first, end, sc) <==>
      ScopedRange(items, i, first, j - 1, sc) && ScopedRange(items, j, first, end, sc)
    decreases j - i
  {
    hide ScopedItem, Scoped;
    if i < j { RangeSplits(items, i + 1, j, first, end, sc); }
  }

  // ----- labels that are not in scope -----

  /** No branch to the label may stand here. */
  predicate Unnamed(sc: Scope, l: Label)
  {
    l !in sc.breaks && l !in sc.loops
  }

  /** A statement in scope does not branch to a label that it does not declare and that may not be
      named in front of it. */
  lemma {:induction false} BranchesInScope(s: Stmt, own: Option<Label>, sc: Scope, l: Label)
    requires Scoped(s, own, sc) && Unnamed(sc, l) && own != Some(l) && l !in LabelsOf(s)
    ensures !BranchesTo(s, l)
    decreases StmtSize(s), 0, 0
  {
    hide ScopedFrom, LabelsIn;
    match s
    case Block(body) => BranchesFrom(body, 0, sc, l);
    case If(_, thn, els) => BranchesFrom(thn, 0, sc, l); BranchesFrom(els, 0, sc, l);
    case For(_, _, _, _, body) =>
      BranchesFrom(body, 0, sc.(loops := sc.loops + OwnLabels(own), breakable := true, loop := true), l);
    case Switch(_, clauses) => BranchesClauses(clauses, sc.(breakable := true), l);
    case RangeFunc(_, _, body) => BranchesFrom(body, 0, CALLBACK, l);
    case _ =>
  }

  lemma {:induction false} BranchesClauses(clauses: seq<Clause>, sc: Scope, l: Label)
    requires ScopedClauses(clauses, sc) && Unnamed(sc, l) && l !in LabelsInClauses(clauses)
    ensures forall k :: 0 <= k < |clauses| ==> !BranchesToIn(clauses[k].body, l)
    decreases ClausesSize(clauses), 0, 0
  {
    hide ScopedFrom, LabelsIn, BranchesToIn;
    if clauses != [] {
      BranchesFrom(clauses[0].body, 0, sc, l);
      BranchesClauses(clauses[1..], sc, l);
      forall k | 0 <= k < |clauses| ensures !BranchesToIn(clauses[k].body, l) {
        if k > 0 { assert clauses[1..][k - 1] == clauses[k]; }
      }
    }
  }

  lemma {:induction false} BranchesItem(items: seq<Item>, k: nat, sc: Scope, l: Label)
    requires k < |items| && l !in LabelsIn(items) && Unnamed(sc, l)
    requires ScopedItem(items[k], sc) || Scoped(items[k].stmt, None, sc)
    ensures !ItemBranchesTo(items[k], l)
    decreases StmtSize(items[k].stmt), 1, 0
  {
    hide Scoped, LabelsIn, LabelsOf;
    var it := items[k];
    LabelsAt(items, k);
    assert l !in ItemLabels(it);
    if Scoped(it.stmt, None, sc) {
      BranchesInScope(it.stmt, None, sc, l);
    } else {
      BranchesInScope(it.stmt, it.lab, sc.(breaks := sc.breaks + OwnLabels(it.lab)), l);
    }
  }

  lemma {:induction false} BranchesFrom(items: seq<Item>, idx: nat, sc: Scope, l: Label)
    requires ScopedFrom(items, idx, sc) && Unnamed(sc, l) && l !in LabelsIn(items)
    ensures forall k :: idx <= k < |items| ==> !ItemBranchesTo(items[k], l)
    ensures idx == 0 ==> !BranchesToIn(items, l)
    decreases Size(items), 3, if idx < |items| then |items| - idx else 0
  {
    hide ChunkAt, ScopedChunk, Size, LabelsIn, BranchesTo;
    if idx < |items| {
      BranchesChunk(items, idx, sc, l);
      BranchesFrom(items, NextIdx(ChunkAt(items, idx), idx), sc, l);
    }
  }

  lemma {:induction false} BranchesChunk(items: seq<Item>, idx: nat, sc: Scope, l: Label)
    requires idx < |items| && ScopedChunk(items, idx, sc) && Unnamed(sc, l) && l !in LabelsIn(items)
    ensures forall k :: idx <= k < NextIdx(ChunkAt(items, idx), idx) && k < |items| ==> !ItemBranchesTo(items[k], l)
    decreases Size(items), 2, 0
  {
    hide Scoped, ScopedItem, ScopedFrom, ScopedRange, ScopedLoop, ScopedGroup, Size, LabelsIn, BackwardEnd;
    SizeAt(items, idx);
    match ChunkAt(items, idx)
    case Plain => BranchesItem(items, idx, sc, l);
    case Cluster(first, end) =>
      BranchesRange(items, idx, first, end, InMachine(sc, LabelsBetween(items, first, end)), l);
    case Leading(end) =>
      assert items[idx].stmt.Goto?;
      BranchesLoop(items, idx + 1, end, sc, l);
    case Group(last) => BranchesGroup(items, idx, last, sc, l);
    case Backward(end) => BranchesLoop(items, idx, end, sc, l);
  }

  lemma {:induction false} BranchesRange(items: seq<Item>, i: nat, first: nat, end: nat, sc: Scope, l: Label)
    requires end < |items| && ScopedRange(items, i, first, end, sc) && Unnamed(sc, l) && l !in LabelsIn(items)
    ensures forall k :: i <= k <= end ==> !ItemBranchesTo(items[k], l)
    decreases Size(items), 1, |items| - i
  {
    hide Scoped, ScopedItem, Size, LabelsIn, BranchesTo;
    if i <= end {
      SizeAt(items, i);
      BranchesItem(items, i, sc, l);
      BranchesRange(items, i + 1, first, end, sc, l);
    }
  }

  lemma {:induction false} BranchesLoop(items: seq<Item>, p: nat, end: nat, sc: Scope, l: Label)
    requires p <= end < |items| && items[p].lab.Some? && ScopedLoop(items, p, end, InLoop(sc, items[p].lab.value))
    requires Unnamed(sc, l) && l !in LabelsIn(items)
    ensures forall k :: p <= k <= end ==> !ItemBranchesTo(items[k], l)
    decreases Size(items), 1, 0
  {
    hide Scoped, ScopedFrom, Size, LabelsIn, BranchesTo;
    var inner, seg := InLoop(sc, items[p].lab.value), items[p + 1..end + 1];
    SizeAt(items, p);
    PartSize(items, p + 1, end + 1);
    LabelsAt(items, p);
    assert l != items[p].lab.value;
    SliceLabels(items, p + 1, end + 1);
    BranchesItem(items, p, inner, l);
    BranchesFrom(seg, 0, inner, l);
    forall k | p < k <= end ensures !ItemBranchesTo(items[k], l) { assert items[k] == seg[k - (p + 1)]; }
  }

  lemma {:induction false} InGroupUnnamed(items: seq<Item>, start: nat, last: nat, q: nat, sc: Scope, l: Label)
    requires Unnamed(sc, l) && l !in LabelsIn(items)
    ensures Unnamed(InBlocks(sc, items, start, last, q), l)
  {
    hide LabelsIn, ForwardStart;
    forall k | 0 <= k < |items| && InGroup(items, start, last, k)
      ensures items[k].lab.value != l
    {
      LabelsAt(items, k);
    }
  }

  lemma {:induction false} BranchesGroup(items: seq<Item>, start: nat, last: nat, sc: Scope, l: Label)
    requires start < last < |items| && InGroup(items, start, last, last) && ScopedGroup(items, start, last, sc)
    requires Unnamed(sc, l) && l !in LabelsIn(items)
    ensures forall k :: start <= k <= last ==> !ItemBranchesTo(items[k], l)
    decreases Size(items), 1, |items| + 1
  {
    hide Scoped, ScopedFrom, ScopedNest, Size, LabelsIn, BranchesTo, InGroup, InBlocks;
    var p := NextInGroup(items, start, last, start + 1);
    var seg := items[start..p];
    PartSize(items, start, p);
    SizeAt(items, last);
    SliceLabels(items, start, p);
    InGroupUnnamed(items, start, last, p, sc, l);
    BranchesFrom(seg, 0, InBlocks(sc, items, start, last, p), l);
    BranchesNest(items, start, last, p, sc, l);
    BranchesItem(items, last, sc, l);
    forall k | start <= k < p ensures !ItemBranchesTo(items[k], l) { assert items[k] == seg[k - start]; }
  }

  lemma {:induction false} BranchesNest(items: seq<Item>, start: nat, last: nat, p: nat, sc: Scope, l: Label)
    requires p <= last < |items| && InGroup(items, start, last, p) && InGroup(items, start, last, last)
    requires ScopedNest(items, start, last, p, sc) && Unnamed(sc, l) && l !in LabelsIn(items)
    ensures forall k :: p <= k < last ==> !ItemBranchesTo(items[k], l)
    decreases Size(items), 1, |items| - p
  {
    hide Scoped, ScopedFrom, Size, LabelsIn, BranchesTo, ForwardStart, InBlocks;
    if p < last {
      var q := NextInGroup(items, start, last, p + 1);
      var seg := Segment(items, p, q);
      SegmentSize(items, p, q);
      SegmentLabels(items, p, q);
      InGroupUnnamed(items, start, last, q, sc, l);
      BranchesFrom(seg, 0, InBlocks(sc, items, start, last, q), l);
      BranchesNest(items, start, last, q, sc, l);
      forall k | p <= k < q ensures !ItemBranchesTo(items[k], l) {
        assert seg[k - p].stmt == items[k].stmt;
        assert !ItemBranchesTo(seg[k - p], l);
      }
    }
  }

  // ----- gotos that have no target in scope -----

  /** No goto to the label may stand here. */
  predicate Unreached(sc: Scope, l: Label)
  {
    l !in sc.machine && l !in sc.open
  }

  /** A statement in scope holds no goto to a label that it does not declare and that may not be gone to
      in front of it. */
  lemma {:induction false} GotosInScope(s: Stmt, own: Option<Label>, sc: Scope, l: Label)
    requires Scoped(s, own, sc) && Unreached(sc, l) && l !in LabelsOf(s)
    ensures l !in GotosOf(s)
    decreases StmtSize(s), 0, 0
  {
    hide ScopedFrom, LabelsIn, GotosIn;
    match s
    case Block(body) => GotosFrom(body, 0, sc, l);
    case If(_, thn, els) => GotosFrom(thn, 0, sc, l); GotosFrom(els, 0, sc, l);
    case For(_, _, _, _, body) =>
      GotosFrom(body, 0, sc.(loops := sc.loops + OwnLabels(own), breakable := true, loop := true), l);
    case Switch(_, clauses) => GotosClauses(clauses, sc.(breakable := true), l);
    case RangeFunc(_, _, body) => GotosFrom(body, 0, CALLBACK, l);
    case _ =>
  }

  lemma {:induction false} GotosClauses(clauses: seq<Clause>, sc: Scope, l: Label)
    requires ScopedClauses(clauses, sc) && Unreached(sc, l) && l !in LabelsInClauses(clauses)
    ensures l !in GotosInClauses(clauses)
    decreases ClausesSize(clauses), 0, 0
  {
    hide ScopedFrom, LabelsIn, GotosIn;
    if clauses != [] {
      GotosFrom(clauses[0].body, 0, sc, l);
      GotosClauses(clauses[1..], sc, l);
    }
  }

  lemma {:induction false} GotosItem(items: seq<Item>, k: nat, sc: Scope, l: Label)
    requires k < |items| && l !in LabelsIn(items) && Unreached(sc, l)
    requires ScopedItem(items[k], sc) || Scoped(items[k].stmt, None, sc)
    ensures l !in GotosOf(items[k].stmt)
    decreases StmtSize(items[k].stmt), 1, 0
  {
    hide Scoped, LabelsIn, LabelsOf, GotosOf;
    var it := items[k];
    LabelsAt(items, k);
    assert l !in ItemLabels(it);
    if Scoped(it.stmt, None, sc) {
      GotosInScope(it.stmt, None, sc, l);
    } else {
      GotosInScope(it.stmt, it.lab, sc.(breaks := sc.breaks + OwnLabels(it.lab)), l);
    }
  }

  lemma {:induction false} GotosFrom(items: seq<Item>, idx: nat, sc: Scope, l: Label)
    requires ScopedFrom(items, idx, sc) && Unreached(sc, l) && l !in LabelsIn(items)
    ensures forall k :: idx <= k < |items| ==> l !in GotosOf(items[k].stmt)
    ensures idx == 0 ==> l !in GotosIn(items)
    decreases Size(items), 3, if idx < |items| then |items| - idx else 0
  {
    hide ChunkAt, ScopedChunk, Size, LabelsIn, GotosOf;
    if idx < |items| {
      GotosChunk(items, idx, sc, l);
      GotosFrom(items, NextIdx(ChunkAt(items, idx), idx), sc, l);
    }
    GotosInAt(items, l);
  }

  lemma {:induction false} GotosChunk(items: seq<Item>, idx: nat, sc: Scope, l: Label)
    requires idx < |items| && ScopedChunk(items, idx, sc) && Unreached(sc, l) && l !in LabelsIn(items)
    ensures forall k :: idx <= k < NextIdx(ChunkAt(items, idx), idx) && k < |items| ==> l !in GotosOf(items[k].stmt)
    decreases Size(items), 2, 0
  {
    hide Scoped, ScopedItem, ScopedFrom, ScopedRange, ScopedLoop, ScopedGroup, Size, LabelsIn, BackwardEnd, ItemLabels;
    SizeAt(items, idx);
    match ChunkAt(items, idx)
    case Plain => GotosItem(items, idx, sc, l);
    case Cluster(first, end) =>
      OtherLabels(items, l);
      GotosRange(items, idx, first, end, InMachine(sc, LabelsBetween(items, first, end)), l);
    case Leading(end) =>
      LeadingGoes(items, idx, l);
      GotosLoop(items, idx + 1, end, sc, l);
    case Group(last) => GotosGroup(items, idx, last, sc, l);
    case Backward(end) => GotosLoop(items, idx, end, sc, l);
  }

  lemma {:induction false} OtherLabels(items: seq<Item>, l: Label)
    requires l !in LabelsIn(items)
    ensures forall p :: 0 <= p < |items| ==> items[p].lab != Some(l)
  {
    hide LabelsIn, LabelsOf;
    forall p | 0 <= p < |items| ensures items[p].lab != Some(l) { LabelsAt(items, p); }
  }

  lemma {:induction false} LeadingGoes(items: seq<Item>, idx: nat, l: Label)
    requires LeadingAt(items, idx) && l !in LabelsIn(items)
    ensures l !in GotosOf(items[idx].stmt)
  {
    hide LabelsIn, BackwardLabelAt;
    OtherLabels(items, l);
  }

  lemma {:induction false} GotosRange(items: seq<Item>, i: nat, first: nat, end: nat, sc: Scope, l: Label)
    requires end < |items| && ScopedRange(items, i, first, end, sc) && Unreached(sc, l) && l !in LabelsIn(items)
    ensures forall k :: i <= k <= end ==> l !in GotosOf(items[k].stmt)
    decreases Size(items), 1, |items| - i
  {
    hide Scoped, ScopedItem, Size, LabelsIn, GotosOf;
    if i <= end {
      SizeAt(items, i);
      GotosItem(items, i, sc, l);
      GotosRange(items, i + 1, first, end, sc, l);
    }
  }

  lemma {:induction false} GotosLoop(items: seq<Item>, p: nat, end: nat, sc: Scope, l: Label)
    requires p <= end < |items| && items[p].lab.Some? && ScopedLoop(items, p, end, InLoop(sc, items[p].lab.value))
    requires Unreached(sc, l) && l !in LabelsIn(items)
    ensures forall k :: p <= k <= end ==> l !in GotosOf(items[k].stmt)
    decreases Size(items), 1, 0
  {
    hide Scoped, ScopedFrom, Size, LabelsIn, GotosOf;
    var inner, seg := InLoop(sc, items[p].lab.value), items[p + 1..end + 1];
    SizeAt(items, p);
    PartSize(items, p + 1, end + 1);
    OtherLabels(items, l);
    SliceLabels(items, p + 1, end + 1);
    GotosItem(items, p, inner, l);
    GotosFrom(seg, 0, inner, l);
    forall k | p < k <= end ensures l !in GotosOf(items[k].stmt) { assert items[k] == seg[k - (p + 1)]; }
  }

  lemma {:induction false} InGroupUnreached(items: seq<Item>, start: nat, last: nat, q: nat, sc: Scope, l: Label)
    requires Unreached(sc, l) && l !in LabelsIn(items)
    ensures Unreached(InBlocks(sc, items, start, last, q), l)
  {
    hide LabelsIn, ForwardStart;
    OtherLabels(items, l);
    forall k | 0 <= k < |items| && InGroup(items, start, last, k) ensures items[k].lab.value != l {
      assert items[k].lab != Some(l);
    }
  }

  lemma {:induction false} GotosGroup(items: seq<Item>, start: nat, last: nat, sc: Scope, l: Label)
    requires start < last < |items| && InGroup(items, start, last, last) && ScopedGroup(items, start, last, sc)
    requires Unreached(sc, l) && l !in LabelsIn(items)
    ensures forall k :: start <= k <= last ==> l !in GotosOf(items[k].stmt)
    decreases Size(items), 1, |items| + 1
  {
    hide Scoped, ScopedFrom, ScopedNest, Size, LabelsIn, GotosOf, InGroup, InBlocks;
    var p := NextInGroup(items, start, last, start + 1);
    var seg := items[start..p];
    PartSize(items, start, p);
    SizeAt(items, last);
    SliceLabels(items, start, p);
    InGroupUnreached(items, start, last, p, sc, l);
    GotosFrom(seg, 0, InBlocks(sc, items, start, last, p), l);
    GotosNest(items, start, last, p, sc, l);
    GotosItem(items, last, sc, l);
    forall k | start <= k < p ensures l !in GotosOf(items[k].stmt) { assert items[k] == seg[k - start]; }
  }

  lemma {:induction false} GotosNest(items: seq<Item>, start: nat, last: nat, p: nat, sc: Scope, l: Label)
    requires p <= last < |items| && InGroup(items, start, last, p) && InGroup(items, start, last, last)
    requires ScopedNest(items, start, last, p, sc) && Unreached(sc, l) && l !in LabelsIn(items)
    ensures forall k :: p <= k < last ==> l !in GotosOf(items[k].stmt)
    decreases Size(items), 1, |items| - p
  {
    hide Scoped, ScopedFrom, Size, LabelsIn, GotosOf, ForwardStart, InBlocks;
    if p < last {
      var q := NextInGroup(items, start, last, p + 1);
      var seg := Segment(items, p, q);
      SegmentSize(items, p, q);
      SegmentLabels(items, p, q);
      InGroupUnreached(items, start, last, q, sc, l);
      GotosFrom(seg, 0, InBlocks(sc, items, start, last, q), l);
      GotosNest(items, start, last, q, sc, l);
      forall k | p <= k < q ensures l !in GotosOf(items[k].stmt) { assert seg[k - p].stmt == items[k].stmt; }
    }
  }
}
