/** The loops that lower a statement list (compiler/lowering.go), against the specification
    functions of Lowering. */
module ListPasses {
  import opened GoSource
  import opened JsTarget
  import opened GotoAnalysis
  import opened Lowering
  import opened SourceChecks
  import opened Sublists
  import opened GotoPasses

  // ----- state clusters -----

  ghost predicate LabelsOfCluster(items: seq<Item>, first: nat, end: nat, labels: seq<nat>)
  {
    && first <= end < |items| && items[first].lab.Some?
    && (forall p :: p in labels <==> first <= p <= end && items[p].lab.Some?)
    && (forall i, j :: 0 <= i < j < |labels| ==> labels[i] < labels[j])
  }

  /** The list of positions visits the labels in the order of the specification. */
  lemma {:induction false} NextOfCluster(items: seq<Item>, first: nat, end: nat, labels: seq<nat>, k: nat)
    requires LabelsOfCluster(items, first, end, labels) && k < |labels|
    ensures labels[0] == first && first <= labels[k] <= end && items[labels[k]].lab.Some?
    ensures NextLabel(items, labels[k] + 1, end) == if k + 1 < |labels| then labels[k + 1] else end + 1
  {
    assert first in labels && labels[0] in labels && labels[k] in labels;
    var j := NextLabel(items, labels[k] + 1, end);
    if k + 1 < |labels| { assert labels[k + 1] in labels; }
    if j <= end {
      assert j in labels;
      var m :| 0 <= m < |labels| && labels[m] == j;
    }
  }

  function Behind(acc: Segments, rest: Segments): Segments
  {
    Segments(acc.values + rest.values, acc.cases + rest.cases, rest.next, acc.ok && rest.ok)
  }

  method LowerGotoStateCluster(ctx: Ctx, items: seq<Item>, cluster: StateCluster, n: nat) returns (low: Low)
    requires LabelsOfCluster(items, cluster.first, cluster.end, cluster.labels)
    ensures low == LowerCluster(ctx, items, cluster.start, cluster.first, cluster.end, n)
  {
    hide LowerFrom;
    var first, end, labels := cluster.first, cluster.end, cluster.labels;
    assert first in labels;
    var inner := StateCtx(ctx, items, first, end, n);
    var table := Segments([], [], n + 1, true);
    if cluster.start < first {
      var b := LowerFrom(inner, items[cluster.start..first], 0, n + 1);
      table := Segments([ENTRY], [JCase(b.code + CaseTail(n, items, first, end))], b.next, b.ok);
    }
    ghost var whole := ClusterTable(ctx, items, cluster.start, first, end, n);
    assert labels[0] == first by { NextOfCluster(items, first, end, labels, 0); }
    assert whole == Behind(table, LowerSegments(inner, items, first, end, n, table.next));
    for k := 0 to |labels|
      invariant k < |labels| ==> first <= labels[k] <= end && items[labels[k]].lab.Some? &&
                                 whole == Behind(table, LowerSegments(inner, items, labels[k], end, n, table.next))
      invariant k == |labels| ==> whole == table
    {
      NextOfCluster(items, first, end, labels, k);
      var next := if k + 1 < |labels| then labels[k + 1] else end + 1;
      var b := LowerFrom(inner, Segment(items, labels[k], next), 0, table.next);
      var one := Segments([items[labels[k]].lab.value], [JCase(b.code + CaseTail(n, items, next, end))], b.next, b.ok);
      if k + 1 < |labels| {
        NextOfCluster(items, first, end, labels, k + 1);
        BehindTwice(table, one, LowerSegments(inner, items, labels[k + 1], end, n, b.next));
      } else {
        assert LowerSegments(inner, items, labels[k], end, n, table.next) == one;
      }
      table := Behind(table, one);
    }
    low := Low(ClusterCode(n, table.values, table.cases), table.next, table.ok);
  }

  lemma {:induction false} BehindTwice(a: Segments, b: Segments, c: Segments)
    ensures Behind(a, Behind(b, c)) == Behind(Behind(a, b), c)
  {
  }

  // ----- groups -----

  /** `spans` are the spans of the group from `start` to `last`, in the order of their labels. */
  ghost predicate SpansOfGroup(items: seq<Item>, start: nat, last: nat, spans: seq<Span>)
  {
    && spans != [] && last < |items| && spans[|spans| - 1].labelIdx == last
    && (forall i :: 0 <= i < |spans| ==>
        InGroup(items, start, last, spans[i].labelIdx) && items[spans[i].labelIdx].lab == Some(spans[i].lab))
    && (forall p: nat :: InGroup(items, start, last, p) ==> exists i :: 0 <= i < |spans| && spans[i].labelIdx == p)
    && (forall i, j :: 0 <= i < j < |spans| ==> spans[i].labelIdx < spans[j].labelIdx)
  }

  lemma {:induction false} NextOfGroup(items: seq<Item>, start: nat, last: nat, spans: seq<Span>, k: nat, i: nat)
    requires SpansOfGroup(items, start, last, spans) && k < |spans|
    requires i <= spans[k].labelIdx && forall m :: 0 <= m < k ==> spans[m].labelIdx < i
    ensures spans[k].labelIdx <= last && InGroup(items, start, last, last) &&
      NextInGroup(items, start, last, i) == spans[k].labelIdx
  {
    assert k == |spans| - 1 || spans[k].labelIdx < spans[|spans| - 1].labelIdx;
    var p := NextInGroup(items, start, last, i);
    var m :| 0 <= m < |spans| && spans[m].labelIdx == p;
    assert m >= k;
  }

  /** What `NestBlocks` makes of the blocks that are left, in front of `ok`. */
  ghost function Rest(ctx: Ctx, items: seq<Item>, start: nat, last: nat, p: nat, before: seq<JS>, n: nat, ok: bool): Low
    requires p <= last < |items| && InGroup(items, start, last, p) && InGroup(items, start, last, last)
  {
    var r := NestBlocks(ctx, items, start, last, p, before, n);
    Low(r.code, r.next, ok && r.ok)
  }

  method LowerForwardGotoLabelGroup(ctx: Ctx, items: seq<Item>, start: nat, last: nat, spans: seq<Span>, n: nat)
    returns (low: Low)
    requires SpansOfGroup(items, start, last, spans) && start < last
    ensures InGroup(items, start, last, last)
    ensures var c := LowerStmt(ctx, items[last].stmt, low.next);
      LowerGroup(ctx, items, start, last, n) == Low(low.code + c.code, c.next, low.ok && c.ok)
  {
    hide LowerFrom, LowerStmt, InGroup;
    var inner := GroupCtx(ctx, items, start, last);
    FirstBehind(items, start, last, spans);
    NextOfGroup(items, start, last, spans, 0, start + 1);
    var p := spans[0].labelIdx;
    var body := LowerFrom(inner, items[start..p], 0, n);
    ghost var whole := Rest(inner, items, start, last, p, body.code, body.next, body.ok);
    var block, next, ok := [JLabeled(Src(spans[0].lab), JBlock(body.code))], body.next, body.ok;
    ghost var before := body.code;
    for k := 1 to |spans|
      invariant spans[k - 1].labelIdx <= last && InGroup(items, start, last, spans[k - 1].labelIdx)
      invariant block == [JLabeled(Src(spans[k - 1].lab), JBlock(before))]
      invariant whole == Rest(inner, items, start, last, spans[k - 1].labelIdx, before, next, ok)
    {
      assert spans[k - 1].labelIdx < spans[k].labelIdx;
      NextOfGroup(items, start, last, spans, k, spans[k - 1].labelIdx + 1);
      var b := LowerFrom(inner, Segment(items, spans[k - 1].labelIdx, spans[k].labelIdx), 0, next);
      before := block + b.code;
      block := [JLabeled(Src(spans[k].lab), JBlock(block + b.code))];
      next, ok := b.next, ok && b.ok;
    }
    low := Low(block, next, ok);
  }

  lemma {:induction false} FirstBehind(items: seq<Item>, start: nat, last: nat, spans: seq<Span>)
    requires SpansOfGroup(items, start, last, spans)
    ensures start < spans[0].labelIdx && InGroup(items, start, last, last)
  {
    assert InGroup(items, start, last, spans[0].labelIdx) && InGroup(items, start, last, spans[|spans| - 1].labelIdx);
  }

  lemma {:induction false} GroupSpans(items: seq<Item>, spans: map<Label, Span>, start: nat, chosen: set<Label>,
                                      group: SpanGroup)
    requires ForwardSpans(items, spans) && Distinct(LabelsIn(items)) && LeastGroup(spans, start, chosen)
    requires Lists(spans, chosen, group.spans) && Sorted(group.spans) && LastOf(spans, chosen, group.labelIdx)
    requires exists l :: l in spans && spans[l].start == start
    ensures group.labelIdx == GroupEnd(items, start, LastStarting(items, start, |items|).value)
    ensures GroupClosed(items, start, group.labelIdx)
    ensures SpansOfGroup(items, start, group.labelIdx, group.spans)
  {
    hide LabelsIn, ForwardStart, GroupEnd, LastStarting, ForwardSpans, LeastGroup, GroupClosed, Lists, LastOf, Sorted,
         InGroup, GroupLabels;
    var last, list := group.labelIdx, group.spans;
    GroupIsLeast(items, spans, start, chosen, last);
    ListMembers(items, spans, start, last, chosen, list);
    ListCovers(items, spans, start, last, chosen, list);
    EndsWithLast(spans, chosen, last, list);
  }

  lemma {:induction false} ListMembers(items: seq<Item>, spans: map<Label, Span>, start: nat, last: nat,
                                       chosen: set<Label>, list: seq<Span>)
    requires ForwardSpans(items, spans) && Distinct(LabelsIn(items)) && GroupClosed(items, start, last)
    requires chosen == GroupLabels(items, start, last) && Lists(spans, chosen, list) && Sorted(list)
    ensures forall i :: 0 <= i < |list| ==>
      InGroup(items, start, last, list[i].labelIdx) && items[list[i].labelIdx].lab == Some(list[i].lab)
    ensures forall i, j :: 0 <= i < j < |list| ==> list[i].labelIdx < list[j].labelIdx
  {
    hide GroupLabels, InGroup, ForwardSpans, LabelsIn, GroupClosed;
    forall x | x in list
      ensures InGroup(items, start, last, x.labelIdx) && x.labelIdx < |items| && items[x.labelIdx].lab == Some(x.lab) &&
        spans[x.lab] == x
    {
      GroupMembers(items, spans, start, last, x.lab);
      SpanStands(items, spans, x.lab);
    }
    forall i, j | 0 <= i < j < |list| ensures list[i].labelIdx < list[j].labelIdx {
      assert Before(list[i], list[j]) && list[i] in list && list[j] in list && list[i] != list[j];
    }
  }

  lemma {:induction false} ListCovers(items: seq<Item>, spans: map<Label, Span>, start: nat, last: nat,
                                      chosen: set<Label>, list: seq<Span>)
    requires ForwardSpans(items, spans) && Distinct(LabelsIn(items))
    requires chosen == GroupLabels(items, start, last) && Lists(spans, chosen, list)
    ensures forall p: nat :: InGroup(items, start, last, p) ==> exists i :: 0 <= i < |list| && list[i].labelIdx == p
  {
    hide GroupLabels, ForwardSpans, LabelsIn;
    forall p: nat | InGroup(items, start, last, p) ensures exists i :: 0 <= i < |list| && list[i].labelIdx == p {
      SpanOfMember(items, spans, start, last, p);
      assert spans[items[p].lab.value] in list;
    }
  }

  lemma {:induction false} EndsWithLast(spans: map<Label, Span>, chosen: set<Label>, last: nat, list: seq<Span>)
    requires Lists(spans, chosen, list) && LastOf(spans, chosen, last)
    requires forall i, j :: 0 <= i < j < |list| ==> list[i].labelIdx < list[j].labelIdx
    ensures list != [] && list[|list| - 1].labelIdx == last
  {
    var m :| m in chosen && m in spans && spans[m].labelIdx == last;
    assert spans[m] in list;
    assert list[|list| - 1] in list;
  }

  lemma {:induction false} SpanStands(items: seq<Item>, spans: map<Label, Span>, l: Label)
    requires ForwardSpans(items, spans) && l in spans
    ensures spans[l].labelIdx < |items| && items[spans[l].labelIdx].lab == Some(l) && spans[l].lab == l
  {
  }

  lemma {:induction false} SpanOfMember(items: seq<Item>, spans: map<Label, Span>, start: nat, last: nat, p: nat)
    requires ForwardSpans(items, spans) && Distinct(LabelsIn(items)) && InGroup(items, start, last, p)
    ensures items[p].lab.value in GroupLabels(items, start, last)
    ensures items[p].lab.value in spans && spans[items[p].lab.value].labelIdx == p
  {
    var l := items[p].lab.value;
    LabelOnce(items, p, spans[l].labelIdx, l);
  }

  // ----- statement lists -----

  /** A goto in front of a loop that it enters: where that loop ends. */
  method LeadingGotoBackwardLoopSpan(items: seq<Item>, idx: nat, backward: map<Label, nat>) returns (end: Option<nat>)
    requires forall l ::
      if l in backward then BackwardEnd(items, l) == Some(backward[l]) else BackwardEnd(items, l) == None
    ensures end.Some? <==> LeadingAt(items, idx)
    ensures end.Some? ==> end == BackwardEnd(items, items[idx + 1].lab.value)
  {
    if idx + 1 >= |items| { return None; }
    if !(items[idx].lab.None? && items[idx].stmt.Goto?) { return None; }
    if items[idx + 1].lab.None? || items[idx + 1].lab.value !in backward { return None; }
    var last, target := backward[items[idx + 1].lab.value], items[idx].stmt.lab;
    var p := idx + 1;
    while p <= last
      invariant idx + 1 <= p && last < |items|
      invariant forall q :: idx + 1 <= q < p && q < |items| ==> items[q].lab != Some(target)
    {
      if items[p].lab == Some(target) { return Some(last); }
      p := p + 1;
    }
    end := None;
  }

  predicate HasGoto(items: seq<Item>)
  {
    GotosIn(items) != []
  }

  /** The loop ends computed by the passes, in the terms of `ChunkAt`. */
  lemma {:induction false} LoopEnds(items: seq<Item>, p: nat)
    requires BackwardLabelAt(items, p) && Distinct(LabelsIn(items))
    ensures p <= BackwardEnd(items, items[p].lab.value).value
  {
    BackwardIsTarget(items, p);
  }

  method LowerStmtListAfter(ctx: Ctx, items: seq<Item>, n: nat) returns (low: Low)
    requires Distinct(LabelsIn(items))
    ensures low == LowerFrom(ctx, items, 0, n)
  {
    low := Low([], n, true);
    var hasGoto := HasGoto(items);
    var backward: map<Label, nat>, forward: map<Label, Span> := map[], map[];
    if hasGoto {
      backward := BackwardGotoLabelSpans(items);
      forward := ForwardGotoLabelSpans(items, backward);
    }
    var idx := 0;
    while idx < |items|
      invariant LowerFrom(ctx, items, 0, n) == Then(low, LowerFrom(ctx, items, idx, low.next))
      decreases |items| - idx
    {
      var part, next;
      if hasGoto {
        part, next := LowerPart(ctx, items, idx, backward, forward, low.next);
      } else {
        NoGotosOwn(items);
        NoOwnPlain(items, idx);
        part, next := LowerItem(ctx, items[idx], low.next), idx + 1;
      }
      ThenTwice(low, part, LowerFrom(ctx, items, next, part.next));
      low, idx := Then(low, part), next;
    }
  }

  lemma {:induction false} ThenTwice(a: Low, b: Low, c: Low)
    ensures Then(a, Then(b, c)) == Then(Then(a, b), c)
  {
  }

  /** One turn of the loop over a list with gotos. */
  method LowerPart(ctx: Ctx, items: seq<Item>, idx: nat, backward: map<Label, nat>, forward: map<Label, Span>, n: nat)
    returns (part: Low, next: nat)
    requires idx < |items| && Distinct(LabelsIn(items))
    requires forall l ::
      if l in backward then BackwardEnd(items, l) == Some(backward[l]) else BackwardEnd(items, l) == None
    requires ForwardSpans(items, forward)
    ensures part == LowerChunk(ctx, items, idx, n) && next == NextIdx(ChunkAt(items, idx), idx) && next > idx
  {
    hide LowerFrom, LowerStmt, LowerGroup, LabelsIn, BackwardEnd, ForwardStart, LowerCluster, LowerLeading,
         LowerBackward, LowerItem, LastStarting, GroupEnd, ForwardSpans, LeastGroup, Lists, Sorted, LastOf, JumpsBack,
         FirstOwnGoto, FirstTarget, LastTouched, InGroup, GroupClosed;
    var cluster := GotoStateClusterAt(items, idx);
    if cluster.Some? {
      ClusterBounds(items);
      part := LowerGotoStateCluster(ctx, items, cluster.value, n);
      return part, cluster.value.end + 1;
    }
    var leading := LeadingGotoBackwardLoopSpan(items, idx, backward);
    if leading.Some? {
      LoopEnds(items, idx + 1);
      part := LowerLeading(ctx, items, idx, leading.value, n);
      return part, leading.value + 1;
    }
    StartsHere(items, forward, idx);
    var group, chosen := ForwardGotoLabelGroupAt(idx, forward);
    if group.Some? {
      var last := group.value.labelIdx;
      GroupSpans(items, forward, idx, chosen, group.value);
      FirstBehind(items, idx, last, group.value.spans);
      var blocks := LowerForwardGotoLabelGroup(ctx, items, idx, last, group.value.spans, n);
      var c := LowerStmt(ctx, items[last].stmt, blocks.next);
      part := Low(blocks.code + c.code, c.next, blocks.ok && c.ok);
      return part, last + 1;
    }
    if items[idx].lab.Some? && items[idx].lab.value in backward {
      var end := backward[items[idx].lab.value];
      LoopEnds(items, idx);
      part := LowerBackward(ctx, items, idx, end, n);
      return part, end + 1;
    }
    part, next := LowerItem(ctx, items[idx], n), idx + 1;
  }

  lemma {:induction false} StartsHere(items: seq<Item>, spans: map<Label, Span>, start: nat)
    requires ForwardSpans(items, spans)
    ensures (exists l :: l in spans && spans[l].start == start) <==> LastStarting(items, start, |items|).Some?
    ensures Keyed(spans)
  {
    if LastStarting(items, start, |items|).Some? {
      var p := LastStarting(items, start, |items|).value;
      assert items[p].lab.value in spans;
    }
  }
}
