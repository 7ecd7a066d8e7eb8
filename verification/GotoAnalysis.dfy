/** Which gotos a statement list holds, and how the lowering pass cuts the list up: state
    clusters, backward spans, forward spans and forward groups (compiler/lowering.go). */
module GotoAnalysis {
  import opened GoSource

  // ----- what occurs inside a statement -----

  /** The goto targets inside a statement, in source order. */
  function GotosOf(s: Stmt): seq<Label>
    decreases s, 1
  {
    match s
    case Goto(l) => [l]
    case Block(body) => GotosIn(body)
    case If(_, thn, els) => GotosIn(thn) + GotosIn(els)
    case For(_, _, _, _, body) => GotosIn(body)
    case Switch(_, clauses) => GotosInClauses(clauses)
    case RangeFunc(_, _, body) => GotosIn(body)
    case _ => []
  }

  function ItemGotos(it: Item): seq<Label>
    decreases it, 2
  {
    GotosOf(it.stmt)
  }

  function GotosIn(items: seq<Item>): seq<Label>
    decreases items, 0
  {
    if items == [] then [] else ItemGotos(items[0]) + GotosIn(items[1..])
  }

  function GotosInClauses(clauses: seq<Clause>): seq<Label>
    decreases clauses, 0
  {
    if clauses == [] then [] else GotosIn(clauses[0].body) + GotosInClauses(clauses[1..])
  }

  /** A measure that dropping a label, or leaving out a statement, makes smaller. */
  function StmtSize(s: Stmt): nat
    decreases s, 1
  {
    match s
    case Block(body) => 1 + Size(body)
    case If(_, thn, els) => 1 + Size(thn) + Size(els)
    case For(_, _, _, _, body) => 1 + Size(body)
    case Switch(_, clauses) => 1 + ClausesSize(clauses)
    case RangeFunc(_, _, body) => 1 + Size(body)
    case _ => 0
  }

  function ItemSize(it: Item): nat
    decreases it, 2
  {
    StmtSize(it.stmt) + (if it.lab.Some? then 2 else 1)
  }

  function Size(items: seq<Item>): nat
    decreases items, 0
  {
    if items == [] then 0 else ItemSize(items[0]) + Size(items[1..])
  }

  function ClausesSize(clauses: seq<Clause>): nat
    decreases clauses, 0
  {
    if clauses == [] then 0 else 1 + Size(clauses[0].body) + ClausesSize(clauses[1..])
  }

  lemma {:induction false} SizeConcat(a: seq<Item>, b: seq<Item>)
    ensures Size(a + b) == Size(a) + Size(b)
  {
    if a == [] {
      assert a + b == b;
    } else {
      assert (a + b)[1..] == a[1..] + b;
      SizeConcat(a[1..], b);
    }
  }

  lemma {:induction false} SizeSlice(items: seq<Item>, i: nat, j: nat)
    requires i <= j <= |items|
    ensures Size(items) == Size(items[..i]) + Size(items[i..j]) + Size(items[j..])
  {
    assert items == items[..i] + items[i..j] + items[j..];
    SizeConcat(items[..i] + items[i..j], items[j..]);
    SizeConcat(items[..i], items[i..j]);
  }

  lemma {:induction false} SizeOne(it: Item)
    ensures Size([it]) == ItemSize(it)
  {
    assert [it][1..] == [];
  }

  lemma {:induction false} SizeAt(items: seq<Item>, i: nat)
    requires i < |items|
    ensures Size(items) == Size(items[..i]) + ItemSize(items[i]) + Size(items[i + 1..])
  {
    SizeSlice(items, i, i + 1);
    assert items[i..i + 1] == [items[i]];
    SizeOne(items[i]);
  }

  /** The statements from a label up to `j`, the label itself left out. */
  function Segment(items: seq<Item>, i: nat, j: nat): (seg: seq<Item>)
    requires i < j <= |items|
    ensures |seg| == j - i
  {
    [Item(None, items[i].stmt)] + items[i + 1..j]
  }

  lemma {:induction false} SizeFrom(items: seq<Item>, i: nat, j: nat)
    requires i < j <= |items|
    ensures ItemSize(items[i]) + Size(items[i + 1..j]) <= Size(items)
  {
    SizeSlice(items, i + 1, j);
    SizeSlice(items[..i + 1], i, i + 1);
    assert items[..i + 1][i..i + 1] == [items[i]];
    SizeOne(items[i]);
  }

  lemma {:induction false} SegmentSize(items: seq<Item>, i: nat, j: nat)
    requires i < j <= |items|
    ensures Size(Segment(items, i, j)) + (if items[i].lab.Some? then 1 else 0) <= Size(items)
  {
    SizeFrom(items, i, j);
    var head := Item(None, items[i].stmt);
    SizeConcat([head], items[i + 1..j]);
    SizeOne(head);
  }

  lemma {:induction false} PartSize(items: seq<Item>, i: nat, j: nat)
    requires i <= j <= |items|
    ensures Size(items[i..j]) <= Size(items)
    ensures i > 0 || j < |items| ==> Size(items[i..j]) < Size(items)
  {
    SizeSlice(items, i, j);
    if i > 0 { SizeAt(items[..i], 0); }
    if j < |items| { SizeAt(items[j..], 0); }
  }

  // ----- backward spans -----

  predicate GotoAt(items: seq<Item>, g: nat, l: Label)
  {
    g < |items| && l in GotosOf(items[g].stmt)
  }

  predicate LabelSeen(items: seq<Item>, l: Label, g: nat)
  {
    exists p :: 0 <= p < |items| && p <= g && items[p].lab == Some(l)
  }

  /** The last of the first `k` statements that holds a goto back to `l`. */
  function LastBackward(items: seq<Item>, l: Label, k: nat): (g: Option<nat>)
    requires k <= |items|
    ensures g.Some? ==> g.value < k && GotoAt(items, g.value, l) && LabelSeen(items, l, g.value)
    ensures forall j :: 0 <= j < k && GotoAt(items, j, l) && LabelSeen(items, l, j) ==> g.Some? && j <= g.value
  {
    if k == 0 then None
    else if GotoAt(items, k - 1, l) && LabelSeen(items, l, k - 1) then Some(k - 1)
    else LastBackward(items, l, k - 1)
  }

  predicate PlainReturnAt(items: seq<Item>, i: nat)
  {
    i < |items| && items[i].lab.None? && items[i].stmt.Return?
  }

  /** Where the loop for a backward label ends: the last goto back to it, and a return
      that directly follows. */
  function BackwardEnd(items: seq<Item>, l: Label): (e: Option<nat>)
    ensures e.Some? ==> e.value < |items|
  {
    match LastBackward(items, l, |items|)
    case None => None
    case Some(g) => Some(if PlainReturnAt(items, g + 1) then g + 1 else g)
  }

  predicate BackwardLabelAt(items: seq<Item>, p: nat)
  {
    p < |items| && items[p].lab.Some? && BackwardEnd(items, items[p].lab.value).Some?
  }

  function BackwardLabels(items: seq<Item>): set<Label>
  {
    set p | 0 <= p < |items| && BackwardLabelAt(items, p) :: items[p].lab.value
  }

  // ----- state clusters -----

  /** Statement `i` holds a goto to a label of this list. */
  predicate OwnGotoAt(items: seq<Item>, i: nat)
  {
    i < |items| && exists p :: 0 <= p < |items| && items[p].lab.Some? && GotoAt(items, i, items[p].lab.value)
  }

  /** The label at `p` is the target of a goto in this list. */
  predicate TargetAt(items: seq<Item>, p: nat)
  {
    p < |items| && items[p].lab.Some? && exists g :: 0 <= g < |items| && GotoAt(items, g, items[p].lab.value)
  }

  function FirstOwnGoto(items: seq<Item>, i: nat): (k: nat)
    requires i <= |items|
    ensures i <= k <= |items|
    ensures k < |items| ==> OwnGotoAt(items, k)
    ensures forall j :: i <= j < k ==> !OwnGotoAt(items, j)
    decreases |items| - i
  {
    if i == |items| || OwnGotoAt(items, i) then i else FirstOwnGoto(items, i + 1)
  }

  function FirstTarget(items: seq<Item>, i: nat): (k: nat)
    requires i <= |items|
    ensures i <= k <= |items|
    ensures k < |items| ==> TargetAt(items, k)
    ensures forall j :: i <= j < k ==> !TargetAt(items, j)
    decreases |items| - i
  {
    if i == |items| || TargetAt(items, i) then i else FirstTarget(items, i + 1)
  }

  /** The last of the first `k` statements that is a target or holds a goto to one, or -1. */
  function LastTouched(items: seq<Item>, k: nat): (e: int)
    requires k <= |items|
    ensures -1 <= e < k
    ensures e >= 0 ==> OwnGotoAt(items, e) || TargetAt(items, e)
    ensures forall j :: e < j < k ==> !OwnGotoAt(items, j) && !TargetAt(items, j)
  {
    if k == 0 then -1
    else if OwnGotoAt(items, k - 1) || TargetAt(items, k - 1) then k - 1
    else LastTouched(items, k - 1)
  }

  /** Some statement jumps to a label of an earlier statement. */
  predicate JumpsBack(items: seq<Item>)
  {
    exists p, g :: 0 <= p < g < |items| && items[p].lab.Some? && GotoAt(items, g, items[p].lab.value)
  }

  /** The list is lowered as one state machine when lowering reaches statement `idx`. */
  predicate ClusterAt(items: seq<Item>, idx: nat)
  {
    JumpsBack(items) && FirstOwnGoto(items, 0) == idx
  }

  // ----- a goto in front of a loop it enters -----

  predicate LeadingAt(items: seq<Item>, idx: nat)
  {
    && idx + 1 < |items|
    && items[idx].lab.None? && items[idx].stmt.Goto?
    && BackwardLabelAt(items, idx + 1)
    && LeadingTarget(items, idx, BackwardEnd(items, items[idx + 1].lab.value).value)
  }

  predicate LeadingTarget(items: seq<Item>, idx: nat, end: nat)
    requires idx < |items| && items[idx].stmt.Goto?
  {
    exists p :: idx + 1 <= p <= end && p < |items| && items[p].lab == Some(items[idx].stmt.lab)
  }

  // ----- forward groups -----

  /** The first goto in front of the label at `p`, when no goto jumps back to it. */
  function ForwardStart(items: seq<Item>, p: nat): (s: Option<nat>)
    ensures s.Some? ==> s.value < p < |items| && items[p].lab.Some? && GotoAt(items, s.value, items[p].lab.value)
                        && !BackwardLabelAt(items, p)
    ensures s.Some? ==> forall j :: 0 <= j < s.value ==> !GotoAt(items, j, items[p].lab.value)
    ensures p < |items| && items[p].lab.Some? && !BackwardLabelAt(items, p) && s.None?
            ==> forall j :: 0 <= j < p ==> !GotoAt(items, j, items[p].lab.value)
  {
    if p < |items| && items[p].lab.Some? && !BackwardLabelAt(items, p)
    then FirstGotoBefore(items, items[p].lab.value, 0, p)
    else None
  }

  function FirstGotoBefore(items: seq<Item>, l: Label, i: nat, p: nat): (s: Option<nat>)
    requires i <= p <= |items|
    ensures s.Some? ==> i <= s.value < p && GotoAt(items, s.value, l)
    ensures forall j :: i <= j < (if s.Some? then s.value else p) ==> !GotoAt(items, j, l)
    decreases p - i
  {
    if i == p then None
    else if GotoAt(items, i, l) then Some(i)
    else FirstGotoBefore(items, l, i + 1, p)
  }

  /** The last label whose span starts exactly at `start`, among the first `k` statements. */
  function LastStarting(items: seq<Item>, start: nat, k: nat): (p: Option<nat>)
    requires k <= |items|
    ensures p.Some? ==> p.value < k && ForwardStart(items, p.value) == Some(start)
    ensures forall j :: 0 <= j < k && ForwardStart(items, j) == Some(start) ==> p.Some? && j <= p.value
  {
    if k == 0 then None
    else if ForwardStart(items, k - 1) == Some(start) then Some(k - 1)
    else LastStarting(items, start, k - 1)
  }

  /** The label at `p` is jumped to from inside [start, last). */
  predicate InGroup(items: seq<Item>, start: nat, last: nat, p: nat)
  {
    p < |items| && ForwardStart(items, p).Some? && start <= ForwardStart(items, p).value < last
  }

  /** No span that starts inside [start, last) ends after `last`. */
  predicate GroupClosed(items: seq<Item>, start: nat, last: nat)
  {
    forall p :: last < p < |items| ==> !InGroup(items, start, last, p)
  }

  /** The last of the first `k` labels that lies behind `last` and is jumped to from inside
      [start, last). */
  function LastPulled(items: seq<Item>, start: nat, last: nat, k: nat): (p: Option<nat>)
    requires k <= |items|
    ensures p.Some? ==> last < p.value < k && InGroup(items, start, last, p.value)
    ensures p.None? ==> forall j :: last < j < k ==> !InGroup(items, start, last, j)
  {
    if k == 0 then None
    else if last < k - 1 && InGroup(items, start, last, k - 1) then Some(k - 1)
    else LastPulled(items, start, last, k - 1)
  }

  lemma {:induction false} PulledUncloses(items: seq<Item>, start: nat, last: nat, p: nat)
    requires last < p && InGroup(items, start, last, p)
    ensures forall v :: last <= v < p ==> !GroupClosed(items, start, v)
  {
    forall v | last <= v < p ensures !GroupClosed(items, start, v) {
      assert InGroup(items, start, v, p);
    }
  }

  /** The least closed end from `last` on. */
  function GroupEnd(items: seq<Item>, start: nat, last: nat): (e: nat)
    requires InGroup(items, start, last, last)
    ensures last <= e < |items| && InGroup(items, start, e, e) && GroupClosed(items, start, e)
    ensures forall v :: last <= v < e ==> !GroupClosed(items, start, v)
    decreases |items| - last
  {
    match LastPulled(items, start, last, |items|)
    case None => last
    case Some(p) =>
      PulledUncloses(items, start, last, p);
      GroupEnd(items, start, p)
  }

  function GroupLabels(items: seq<Item>, start: nat, last: nat): set<Label>
  {
    set p | 0 <= p < |items| && InGroup(items, start, last, p) :: items[p].lab.value
  }

  // ----- the cut -----

  datatype Chunk =
    | Plain
    | Cluster(first: nat, end: nat)
    | Leading(end: nat)
    | Group(last: nat)
    | Backward(end: nat)

  /** Where the lowering goes on after a part of the list. */
  function NextIdx(c: Chunk, idx: nat): nat
  {
    match c
    case Plain => idx + 1
    case Cluster(_, end) => end + 1
    case Leading(end) => end + 1
    case Group(last) => last + 1
    case Backward(end) => end + 1
  }

  function Max(a: nat, b: nat): nat
  {
    if a < b then b else a
  }

  lemma {:induction false} ClusterBounds(items: seq<Item>)
    requires JumpsBack(items)
    ensures FirstTarget(items, 0) <= LastTouched(items, |items|)
    ensures FirstTarget(items, 0) < |items| && FirstOwnGoto(items, 0) <= LastTouched(items, |items|)
  {
    var p, g :| 0 <= p < g < |items| && items[p].lab.Some? && GotoAt(items, g, items[p].lab.value);
    assert TargetAt(items, p) && OwnGotoAt(items, g);
  }

  /** What the lowering of a statement list does when it stands at `idx`. With distinct labels
      no goto counts as backward before its label, so the loop ends never fall short. */
  function ChunkAt(items: seq<Item>, idx: nat): (c: Chunk)
    requires idx < |items|
    ensures c.Cluster? ==> c.first <= c.end < |items| && idx <= c.end && items[c.first].lab.Some?
    ensures c.Leading? ==> idx + 1 <= c.end < |items| && items[idx + 1].lab.Some?
    ensures c.Group? ==>
      idx < c.last < |items| && InGroup(items, idx, c.last, c.last) && GroupClosed(items, idx, c.last)
    ensures c.Backward? ==> idx <= c.end < |items| && items[idx].lab.Some?
  {
    if ClusterAt(items, idx) then
      ClusterBounds(items);
      Cluster(FirstTarget(items, 0), LastTouched(items, |items|))
    else if LeadingAt(items, idx) then Leading(Max(idx + 1, BackwardEnd(items, items[idx + 1].lab.value).value))
    else if LastStarting(items, idx, |items|).Some? then
      Group(GroupEnd(items, idx, LastStarting(items, idx, |items|).value))
    else if BackwardLabelAt(items, idx) then Backward(Max(idx, BackwardEnd(items, items[idx].lab.value).value))
    else Plain
  }
}
