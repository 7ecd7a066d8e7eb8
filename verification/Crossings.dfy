/** Lists whose gotos cross and that are no state machine: a goto out of a loop, one back into a loop, one
    behind the last block, and one back past the end of a block. None of them is in scope. */
module Crossings {
  import opened GoSource
  import opened GotoAnalysis
  import opened Lowering
  import opened SourceChecks
  import opened Sublists
  import opened Scopes
  import opened Spans

  // ----- gotos that leave a loop -----

  /** The traversal of a list without a state machine stands wherever no goto crosses and no return
      belongs to a loop. */
  lemma {:induction false} StandsAt(items: seq<Item>, idx: nat, p: nat, sc: Scope)
    requires Distinct(LabelsIn(items)) && !OneCluster(items) && Standing(items, idx)
    requires idx <= p < |items| && Ended(items, p) && !PlainReturnAt(items, p) && ScopedFrom(items, idx, sc)
    ensures ScopedFrom(items, p, sc) && Standing(items, p)
    decreases p - idx
  {
    hide LabelsIn, Standing, ScopedChunk, ChunkAt, Ended;
    if idx < p {
      StandingNext(items, idx);
      ChunkStops(items, idx, p);
      StandsAt(items, NextIdx(ChunkAt(items, idx), idx), p, sc);
    }
  }

  lemma {:induction false} ChunkStops(items: seq<Item>, idx: nat, p: nat)
    requires Distinct(LabelsIn(items)) && !OneCluster(items) && Standing(items, idx)
    requires idx < p < |items| && Ended(items, p) && !PlainReturnAt(items, p)
    ensures idx < NextIdx(ChunkAt(items, idx), idx) <= p
  {
    hide LabelsIn, FirstOwnGoto, FirstTarget, LastTouched;
    ChunkKind(items, idx);
    match ChunkAt(items, idx)
    case Group(last) =>
      if p <= last { var s, t := Cover(items, idx, last, p - 1); }
    case Backward(_) =>
      var far, end := LoopSpan(items, idx);
    case Leading(_) =>
      var far, end := LoopSpan(items, idx + 1);
      var t :| idx + 1 <= t <= end && t < |items| && items[t].lab == Some(items[idx].stmt.lab);
      assert Jumps(items, idx, t);
    case Plain =>
  }

  /** A goto from inside a loop to a label behind it is out of scope, when neither a goto crosses the
      label of the loop nor a block starts there. */
  lemma {:induction false} LoopLeft(items: seq<Item>, sc: Scope, p: nat, h: nat, g: nat, q: nat)
    requires Distinct(LabelsIn(items)) && !OneCluster(items) && Ended(items, p) && p < g <= h && Jumps(items, h, p)
    requires Jumps(items, g, q) && !EndsBehind(items, p, q) && p < q && Unreached(sc, items[q].lab.value)
    requires forall t: nat :: p < t ==> !Jumps(items, p, t)
    ensures !ScopedFrom(items, 0, sc)
  {
    hide LabelsIn, ScopedFrom, Standing, Ended, OneCluster, GotosOf;
    if ScopedFrom(items, 0, sc) {
      StartsStanding(items);
      StandsAt(items, 0, p, sc);
      var last, end := LoopSpan(items, p);
      LoopStarts(items, p, h, sc);
      BodyStays(items, sc, p, end, q, g);
    }
  }

  lemma {:induction false} BodyStays(items: seq<Item>, sc: Scope, p: nat, end: nat, q: nat, g: nat)
    requires Distinct(LabelsIn(items)) && p < g <= end < q < |items| && items[p].lab.Some? && items[q].lab.Some?
    requires Unreached(sc, items[q].lab.value)
    requires ScopedFrom(items[p + 1..end + 1], 0, InLoop(sc, items[p].lab.value))
    ensures !GotoAt(items, g, items[q].lab.value)
  {
    hide LabelsIn, ScopedFrom, GotosOf;
    var l, seg := items[q].lab.value, items[p + 1..end + 1];
    LabelBehind(items, p + 1, end + 1, seg, q);
    LabelOnce(items, q, p, l);
    GotosFrom(seg, 0, InLoop(sc, items[p].lab.value), l);
    assert seg[g - (p + 1)] == items[g];
  }

  lemma {:induction false} LoopStarts(items: seq<Item>, p: nat, h: nat, sc: Scope)
    requires Distinct(LabelsIn(items)) && !OneCluster(items) && Standing(items, p) && p <= h && Jumps(items, h, p)
    requires forall t: nat :: p < t ==> !Jumps(items, p, t)
    requires ScopedFrom(items, p, sc)
    ensures BackwardLabelAt(items, p)
    ensures var end := BackwardEnd(items, items[p].lab.value).value;
      p <= end < |items| && ScopedFrom(items[p + 1..end + 1], 0, InLoop(sc, items[p].lab.value))
  {
    hide LabelsIn, ChunkAt, ScopedChunk, OneCluster, Standing, LastBackward, BackwardEnd;
    var end := LoopChunk(items, p, h);
    assert ScopedChunk(items, p, sc);
    BodyOfScoped(items, p, end, sc);
  }

  lemma {:induction false} LoopChunk(items: seq<Item>, p: nat, h: nat) returns (end: nat)
    requires Distinct(LabelsIn(items)) && !OneCluster(items) && Standing(items, p) && p <= h && Jumps(items, h, p)
    requires forall t: nat :: p < t ==> !Jumps(items, p, t)
    ensures BackwardLabelAt(items, p) && end == BackwardEnd(items, items[p].lab.value).value
    ensures p <= end < |items| && ChunkAt(items, p) == Backward(end)
  {
    hide LabelsIn, OneCluster, Standing, LastBackward, ForwardStart, ClusterAt, BackwardEnd;
    TargetIsBackward(items, p, h);
    ChunkKind(items, p);
    var last;
    last, end := LoopSpan(items, p);
    if LastStarting(items, p, |items|).Some? { StartJumps(items, LastStarting(items, p, |items|).value); }
  }

  lemma {:induction false} StartJumps(items: seq<Item>, t: nat)
    requires ForwardStart(items, t).Some?
    ensures ForwardStart(items, t).value < t && Jumps(items, ForwardStart(items, t).value, t)
  {
  }

  lemma {:induction false} BodyOfScoped(items: seq<Item>, p: nat, end: nat, sc: Scope)
    requires p <= end < |items| && items[p].lab.Some? && ScopedChunk(items, p, sc) && ChunkAt(items, p) == Backward(end)
    ensures ScopedFrom(items[p + 1..end + 1], 0, InLoop(sc, items[p].lab.value))
  {
    hide ChunkAt, Scoped, ScopedFrom;
    assert ScopedLoop(items, p, end, InLoop(sc, items[p].lab.value));
  }

  // ----- gotos behind a block, and loops that a block cuts -----

  /** A block that starts at `idx` and ends at `p` is a group of its own when no block goes beyond it. */
  lemma {:induction false} BlockStarts(items: seq<Item>, idx: nat, p: nat)
    requires Distinct(LabelsIn(items)) && !OneCluster(items) && Standing(items, idx) && Ended(items, idx)
    requires idx < p && Jumps(items, idx, p) && !Covered(items, p) && !LeadingAt(items, idx)
    requires !BackwardLabelAt(items, p)
    ensures ChunkAt(items, idx) == Group(p)
  {
    hide LabelsIn, OneCluster, Standing, Ended, LeadingAt, ClusterAt, BackwardLabelAt;
    ChunkKind(items, idx);
    JumpsIn(items, idx, p);
    FirstIsHere(items, idx, p);
    var e := LastStarting(items, idx, |items|).value;
    StartJumps(items, e);
    assert p <= e && (idx < p < e ==> Covered(items, p));
    forall t | p < t < |items| ensures !InGroup(items, idx, p, t) {
      if InGroup(items, idx, p, t) { StartJumps(items, t); }
    }
  }

  lemma {:induction false} FirstIsHere(items: seq<Item>, idx: nat, p: nat)
    requires Ended(items, idx) && idx < p && Jumps(items, idx, p) && !BackwardLabelAt(items, p)
    ensures ForwardStart(items, p) == Some(idx)
  {
    hide BackwardLabelAt;
    var s := ForwardStart(items, p);
    assert s.Some? && s.value <= idx;
    assert Jumps(items, s.value, p);
  }

  /** A goto forwards of the statement that ends a block, behind all blocks, is out of scope. */
  lemma {:induction false} ChainLeft(items: seq<Item>, sc: Scope, idx: nat, p: nat, q: nat)
    requires Distinct(LabelsIn(items)) && !OneCluster(items) && Ended(items, idx)
    requires idx < p < q && Jumps(items, idx, p) && !Covered(items, p) && !LeadingAt(items, idx)
    requires !BackwardLabelAt(items, p) && Jumps(items, p, q) && Unreached(sc, items[q].lab.value)
    ensures !ScopedFrom(items, 0, sc)
  {
    hide LabelsIn, ScopedFrom, Standing, Ended, OneCluster, GotosOf, LeadingAt, BackwardLabelAt, Covered, Scoped,
         ScopedNest;
    if ScopedFrom(items, 0, sc) {
      StartsStanding(items);
      HoldsNoReturn(items, idx, p);
      StandsAt(items, 0, idx, sc);
      BlockStarts(items, idx, p);
      EndOfGroup(items, idx, p, sc);
      LabelOnce(items, q, p, items[q].lab.value);
      GotosInScope(items[p].stmt, None, sc, items[q].lab.value);
    }
  }

  lemma {:induction false} HoldsNoReturn(items: seq<Item>, g: nat, p: nat)
    requires Jumps(items, g, p)
    ensures !PlainReturnAt(items, g)
  {
  }

  lemma {:induction false} EndOfGroup(items: seq<Item>, idx: nat, last: nat, sc: Scope)
    requires idx < |items| && ChunkAt(items, idx) == Group(last) && ScopedFrom(items, idx, sc)
    ensures last < |items| && Scoped(items[last].stmt, None, sc)
  {
    hide ChunkAt, Scoped, ScopedNest;
    assert ScopedChunk(items, idx, sc);
    assert ScopedGroup(items, idx, last, sc);
  }

  lemma {:induction false} GroupHolds(items: seq<Item>, idx: nat, last: nat)
    requires idx < |items| && ChunkAt(items, idx) == Group(last)
    ensures !PlainReturnAt(items, idx)
  {
    hide LeadingAt, ClusterAt;
    StartJumps(items, LastStarting(items, idx, |items|).value);
  }

  /** The piece of the nest that holds a statement is in scope inside its blocks. */
  lemma {:induction false} PieceHolding(items: seq<Item>, start: nat, last: nat, p: nat, g: nat, sc: Scope)
    returns (a: nat, b: nat)
    requires p <= g < last < |items| && InGroup(items, start, last, p) && InGroup(items, start, last, last)
    requires ScopedNest(items, start, last, p, sc)
    ensures p <= a <= g < b <= last && (forall x :: a < x < b ==> !InGroup(items, start, last, x))
    ensures ScopedFrom(Segment(items, a, b), 0, InBlocks(sc, items, start, last, b))
    decreases last - p
  {
    hide ScopedFrom, InGroup, InBlocks;
    var q := NextInGroup(items, start, last, p + 1);
    if g < q { a, b := p, q; } else { a, b := PieceHolding(items, start, last, q, g, sc); }
  }

  /** A goto back past a label of the group is out of scope: its loop is cut by the block that ends there. */
  lemma {:induction false} LoopCut(items: seq<Item>, sc: Scope, idx: nat, last: nat, r: nat, t: nat, g: nat)
    requires Distinct(LabelsIn(items)) && idx < |items| && ChunkAt(items, idx) == Group(last)
    requires idx <= r < t <= g <= last && Jumps(items, g, r) && InGroup(items, idx, last, t)
    requires Unreached(sc, items[r].lab.value)
    ensures !ScopedFrom(items, idx, sc)
  {
    hide LabelsIn, ChunkAt, Scoped, InGroup, GotosOf, ScopedNest;
    if ScopedFrom(items, idx, sc) {
      EndOfGroup(items, idx, last, sc);
      var l := items[r].lab.value;
      if g == last {
        LabelOnce(items, r, last, l);
        GotosInScope(items[last].stmt, None, sc, l);
      } else {
        CutPiece(items, sc, idx, last, r, t, g);
      }
    }
  }

  lemma {:induction false} CutPiece(items: seq<Item>, sc: Scope, idx: nat, last: nat, r: nat, t: nat, g: nat)
    requires Distinct(LabelsIn(items)) && idx < |items| && ChunkAt(items, idx) == Group(last)
    requires idx <= r < t <= g < last && items[r].lab.Some? && InGroup(items, idx, last, t)
    requires Unreached(sc, items[r].lab.value) && ScopedFrom(items, idx, sc)
    ensures !Jumps(items, g, r)
  {
    hide LabelsIn, ChunkAt, Scoped, InGroup, GotosOf, ScopedNest, ScopedFrom, InBlocks;
    if Jumps(items, g, r) {
      var l := items[r].lab.value;
      var p := NestOfGroup(items, idx, last, sc);
      var a, b := PieceHolding(items, idx, last, p, g, sc);
      var seg := Segment(items, a, b);
      assert seg[g - a].stmt == items[g].stmt;
      LabelBehind(items, a, b, seg, r);
      LoopUnreached(items, idx, last, b, sc, r, g);
      GotosFrom(seg, 0, InBlocks(sc, items, idx, last, b), l);
    }
  }

  lemma {:induction false} NestOfGroup(items: seq<Item>, idx: nat, last: nat, sc: Scope) returns (p: nat)
    requires idx < |items| && ChunkAt(items, idx) == Group(last) && ScopedFrom(items, idx, sc)
    ensures idx < p <= last < |items| && InGroup(items, idx, last, p) && InGroup(items, idx, last, last)
    ensures forall x :: idx < x < p ==> !InGroup(items, idx, last, x)
    ensures ScopedNest(items, idx, last, p, sc)
  {
    hide Scoped, ScopedNest, InGroup;
    assert ScopedChunk(items, idx, sc);
    p := NextInGroup(items, idx, last, idx + 1);
  }

  lemma {:induction false} LoopUnreached(items: seq<Item>, start: nat, last: nat, b: nat, sc: Scope, r: nat, g: nat)
    requires Distinct(LabelsIn(items)) && r <= g && Jumps(items, g, r) && Unreached(sc, items[r].lab.value)
    ensures Unreached(InBlocks(sc, items, start, last, b), items[r].lab.value)
  {
    hide LabelsIn, BackwardLabelAt;
    TargetIsBackward(items, r, g);
    forall p | 0 <= p < |items| && InGroup(items, start, last, p) ensures items[p].lab.value != items[r].lab.value {
      LabelOnce(items, r, p, items[r].lab.value);
    }
  }

  // ----- gotos back into a loop -----

  /** Behind a label no goto to it is in scope, unless it was gone to from outside or is part of a machine. */
  lemma {:induction false} GotosBehind(items: seq<Item>, idx: nat, sc: Scope, q: nat)
    requires Distinct(LabelsIn(items)) && !OneCluster(items) && Standing(items, idx) && q < idx && q < |items|
    requires items[q].lab.Some? && Unreached(sc, items[q].lab.value) && ScopedFrom(items, idx, sc)
    ensures forall k :: idx <= k < |items| ==> !GotoAt(items, k, items[q].lab.value)
    decreases |items| - idx
  {
    hide LabelsIn, Standing, ScopedChunk, ChunkAt, OneCluster, GotosOf;
    if idx < |items| {
      var next := NextIdx(ChunkAt(items, idx), idx);
      StandingNext(items, idx);
      assert ScopedChunk(items, idx, sc);
      forall k | idx <= k < next && k < |items| ensures !GotoAt(items, k, items[q].lab.value) {
        ChunkBehind(items, idx, sc, q, k);
      }
      ChunkGoesOn(items, idx);
      if next < |items| { GotosBehind(items, next, sc, q); }
    }
  }

  lemma {:induction false} ChunkGoesOn(items: seq<Item>, idx: nat)
    requires idx < |items|
    ensures idx < NextIdx(ChunkAt(items, idx), idx)
  {
  }

  lemma {:induction false} ScopedGoesOn(items: seq<Item>, idx: nat, sc: Scope)
    requires idx < |items| && ScopedFrom(items, idx, sc)
    ensures ScopedFrom(items, NextIdx(ChunkAt(items, idx), idx), sc)
  {
    hide ChunkAt, ScopedChunk;
  }

  lemma {:induction false} ChunkBehind(items: seq<Item>, idx: nat, sc: Scope, q: nat, k: nat)
    requires Distinct(LabelsIn(items)) && !OneCluster(items) && Standing(items, idx) && q < idx <= k < |items|
    requires items[q].lab.Some? && Unreached(sc, items[q].lab.value) && ScopedChunk(items, idx, sc)
    requires k < NextIdx(ChunkAt(items, idx), idx)
    ensures !GotoAt(items, k, items[q].lab.value)
  {
    hide LabelsIn, Scoped, ScopedItem, ScopedLoop, ScopedGroup, GotosOf, OneCluster, Standing, LeadingAt, BackwardEnd,
         ForwardStart, BackwardLabelAt, ClusterAt;
    ChunkKind(items, idx);
    match ChunkAt(items, idx)
    case Plain => StatementBehind(items, k, sc, q);
    case Backward(end) => LoopBehind(items, idx, end, sc, q, k);
    case Leading(end) =>
      if k == idx { EnterBehind(items, idx, q); } else { LoopBehind(items, idx + 1, end, sc, q, k); }
    case Group(last) => GroupBehind(items, idx, last, sc, q, k);
  }

  lemma {:induction false} StatementBehind(items: seq<Item>, k: nat, sc: Scope, q: nat)
    requires Distinct(LabelsIn(items)) && q < |items| && k < |items| && items[q].lab.Some?
    requires Unreached(sc, items[q].lab.value) && (ScopedItem(items[k], sc) || Scoped(items[k].stmt, None, sc))
    ensures !GotoAt(items, k, items[q].lab.value)
  {
    hide LabelsIn, Scoped, GotosOf;
    var it, l := items[k], items[q].lab.value;
    LabelOnce(items, q, k, l);
    if Scoped(it.stmt, None, sc) {
      GotosInScope(it.stmt, None, sc, l);
    } else {
      GotosInScope(it.stmt, it.lab, sc.(breaks := sc.breaks + OwnLabels(it.lab)), l);
    }
  }

  lemma {:induction false} EnterBehind(items: seq<Item>, idx: nat, q: nat)
    requires Distinct(LabelsIn(items)) && q < idx < |items| && items[q].lab.Some? && LeadingAt(items, idx)
    ensures !GotoAt(items, idx, items[q].lab.value)
  {
    hide LabelsIn, BackwardLabelAt;
    var t :| idx + 1 <= t < |items| && items[t].lab == Some(items[idx].stmt.lab);
    LabelOnce(items, t, q, items[idx].stmt.lab);
  }

  lemma {:induction false} LoopBehind(items: seq<Item>, p: nat, end: nat, sc: Scope, q: nat, k: nat)
    requires Distinct(LabelsIn(items)) && q < p <= k <= end < |items| && items[p].lab.Some? && items[q].lab.Some?
    requires Unreached(sc, items[q].lab.value) && ScopedLoop(items, p, end, InLoop(sc, items[p].lab.value))
    ensures !GotoAt(items, k, items[q].lab.value)
  {
    hide LabelsIn, Scoped, GotosOf, ScopedFrom;
    var l, seg, inner := items[q].lab.value, items[p + 1..end + 1], InLoop(sc, items[p].lab.value);
    LabelOnce(items, q, p, l);
    if k == p {
      StatementBehind(items, p, inner, q);
    } else {
      assert seg[k - (p + 1)] == items[k];
      LabelBehind(items, p + 1, end + 1, seg, q);
      GotosFrom(seg, 0, inner, l);
    }
  }

  lemma {:induction false} GroupBehind(items: seq<Item>, start: nat, last: nat, sc: Scope, q: nat, k: nat)
    requires Distinct(LabelsIn(items)) && q < start <= k <= last < |items| && start < last && items[q].lab.Some?
    requires InGroup(items, start, last, last) && Unreached(sc, items[q].lab.value)
    requires ScopedGroup(items, start, last, sc)
    ensures !GotoAt(items, k, items[q].lab.value)
  {
    hide LabelsIn, Scoped, GotosOf, ScopedFrom, ScopedNest, InBlocks, InGroup;
    var l, p := items[q].lab.value, NextInGroup(items, start, last, start + 1);
    if k == last {
      StatementBehind(items, last, sc, q);
    } else if k < p {
      assert items[start..p][k - start] == items[k];
      LabelBehind(items, start, p, items[start..p], q);
      FarUnreached(items, start, last, p, sc, q);
      GotosFrom(items[start..p], 0, InBlocks(sc, items, start, last, p), l);
    } else {
      var a, b := PieceHolding(items, start, last, p, k, sc);
      assert Segment(items, a, b)[k - a].stmt == items[k].stmt;
      LabelBehind(items, a, b, Segment(items, a, b), q);
      FarUnreached(items, start, last, b, sc, q);
      GotosFrom(Segment(items, a, b), 0, InBlocks(sc, items, start, last, b), l);
    }
  }

  lemma {:induction false} FarUnreached(items: seq<Item>, start: nat, last: nat, b: nat, sc: Scope, q: nat)
    requires Distinct(LabelsIn(items)) && q < start && q < |items| && items[q].lab.Some?
    requires Unreached(sc, items[q].lab.value)
    ensures Unreached(InBlocks(sc, items, start, last, b), items[q].lab.value)
  {
    hide LabelsIn;
    forall p | 0 <= p < |items| && InGroup(items, start, last, p) ensures items[p].lab.value != items[q].lab.value {
      LabelOnce(items, q, p, items[q].lab.value);
    }
  }

  /** A goto back from behind a loop to a label inside it is out of scope, when neither a goto crosses the
      label of the loop nor a block starts there. */
  lemma {:induction false} LoopReentered(items: seq<Item>, sc: Scope, p: nat, h: nat, g: nat, q: nat)
    requires Distinct(LabelsIn(items)) && !OneCluster(items) && Ended(items, p) && p < q <= h && Jumps(items, h, p)
    requires Jumps(items, g, q) && p < g && !EndsBehind(items, p, g) && Unreached(sc, items[q].lab.value)
    requires forall t: nat :: p < t ==> !Jumps(items, p, t)
    ensures !ScopedFrom(items, 0, sc)
  {
    hide LabelsIn, ScopedFrom, Standing, Ended, OneCluster, GotosOf, ChunkAt, ScopedChunk;
    if ScopedFrom(items, 0, sc) {
      StartsStanding(items);
      StandsAt(items, 0, p, sc);
      var end := LoopChunk(items, p, h);
      var last, end1 := LoopSpan(items, p);
      StandingNext(items, p);
      HoldsNoReturn(items, g, q);
      assert end < g;
      assert NextIdx(ChunkAt(items, p), p) == end + 1;
      ScopedGoesOn(items, p, sc);
      GotosBehind(items, end + 1, sc, q);
    }
  }
}
