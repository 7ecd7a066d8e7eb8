/** The passes over a statement list, as the loops of compiler/lowering.go, against the
    specification functions of GotoAnalysis and Lowering. */
module GotoPasses {
  import opened FiniteSets
  import opened GoSource
  import opened Ordering
  import opened GotoAnalysis
  import opened SourceChecks
  import opened Sublists

  // ----- state clusters -----

  datatype StateCluster = StateCluster(start: nat, first: nat, end: nat, labels: seq<nat>)

  /** The label table of a list. */
  ghost predicate Indexes(items: seq<Item>, indexes: map<Label, nat>, n: nat)
    requires n <= |items|
  {
    && (forall l :: l in indexes ==> indexes[l] < n && items[indexes[l]].lab == Some(l))
    && (forall p :: 0 <= p < n && items[p].lab.Some? ==> items[p].lab.value in indexes)
  }

  method LabelIndexes(items: seq<Item>) returns (indexes: map<Label, nat>)
    ensures Indexes(items, indexes, |items|)
  {
    indexes := map[];
    for i := 0 to |items|
      invariant Indexes(items, indexes, i)
    {
      if items[i].lab.Some? {
        indexes := indexes[items[i].lab.value := i];
      }
    }
  }

  /** The bounds found so far account for the goto to `l` in statement `s`. */
  ghost predicate Counted(indexes: map<Label, nat>, s: nat, l: Label, start: nat, first: nat, end: int, back: bool)
  {
    l in indexes ==> start <= s <= end && first <= indexes[l] <= end && (s > indexes[l] ==> back)
  }

  /** The bounds found so far come from gotos of the list. */
  ghost predicate Found(items: seq<Item>, start: nat, first: nat, end: int, back: bool)
  {
    && start <= |items| && (start < |items| ==> OwnGotoAt(items, start))
    && first <= |items| && (first < |items| ==> TargetAt(items, first))
    && -1 <= end < |items| && (end >= 0 ==> OwnGotoAt(items, end) || TargetAt(items, end))
    && (back ==> JumpsBack(items))
  }

  lemma {:induction false} BoundsExact(items: seq<Item>, indexes: map<Label, nat>, start: nat, first: nat, end: int,
                                       back: bool)
    requires Distinct(LabelsIn(items)) && Indexes(items, indexes, |items|) && Found(items, start, first, end, back)
    requires forall s, l ::
      0 <= s < |items| && l in GotosOf(items[s].stmt) ==> Counted(indexes, s, l, start, first, end, back)
    ensures start == FirstOwnGoto(items, 0) && first == FirstTarget(items, 0) && end == LastTouched(items, |items|) &&
      back == JumpsBack(items)
  {
    forall s, p | 0 <= s < |items| && 0 <= p < |items| && items[p].lab.Some? && GotoAt(items, s, items[p].lab.value)
      ensures start <= s <= end && first <= p <= end && (s > p ==> back)
    {
      var l := items[p].lab.value;
      assert Counted(indexes, s, l, start, first, end, back);
      LabelOnce(items, p, indexes[l], l);
    }
  }

  /** The callback over the gotos of statement `s`. */
  method CountGotos(items: seq<Item>, s: nat, indexes: map<Label, nat>, start0: nat, first0: nat, end0: int,
                    back0: bool)
    returns (start: nat, first: nat, end: int, back: bool)
    requires s < |items| && Indexes(items, indexes, |items|) && Found(items, start0, first0, end0, back0)
    ensures Found(items, start, first, end, back)
    ensures start <= start0 && first <= first0 && end >= end0 && (back0 ==> back)
    ensures forall l :: l in GotosOf(items[s].stmt) ==> Counted(indexes, s, l, start, first, end, back)
  {
    hide GotosOf, JumpsBack, OwnGotoAt, TargetAt;
    start, first, end, back := start0, first0, end0, back0;
    var gotos := GotosOf(items[s].stmt);
    for j := 0 to |gotos|
      invariant Found(items, start, first, end, back)
      invariant start <= start0 && first <= first0 && end >= end0 && (back0 ==> back)
      invariant forall k :: 0 <= k < j ==> Counted(indexes, s, gotos[k], start, first, end, back)
    {
      if gotos[j] in indexes {
        var p := indexes[gotos[j]];
        GotoFound(items, s, p);
        if s < start { start := s; }
        if p < first { first := p; }
        if p > end { end := p; }
        if s > end { end := s; }
        if s > p { back := true; }
      }
    }
  }

  lemma {:induction false} GotoFound(items: seq<Item>, s: nat, p: nat)
    requires s < |items| && p < |items| && items[p].lab.Some? && items[p].lab.value in GotosOf(items[s].stmt)
    ensures OwnGotoAt(items, s) && TargetAt(items, p) && (s > p ==> JumpsBack(items))
  {
    assert GotoAt(items, s, items[p].lab.value);
  }

  method GotoStateClusterAt(items: seq<Item>, idx: nat) returns (cluster: Option<StateCluster>)
    requires Distinct(LabelsIn(items))
    ensures cluster.Some? <==> ClusterAt(items, idx)
    ensures cluster.Some? ==>
      && cluster.value.start == idx && cluster.value.first == FirstTarget(items, 0)
      && cluster.value.end == LastTouched(items, |items|)
      && (forall p :: p in cluster.value.labels <==>
          cluster.value.first <= p <= cluster.value.end && items[p].lab.Some?)
      && (forall i, j :: 0 <= i < j < |cluster.value.labels| ==> cluster.value.labels[i] < cluster.value.labels[j])
  {
    hide GotosOf, JumpsBack, FirstOwnGoto, FirstTarget, LastTouched, LabelsIn, OwnGotoAt, TargetAt, Indexes;
    var indexes := LabelIndexes(items);
    var start: nat, first: nat, end: int, back := |items|, |items|, -1, false;
    for s := 0 to |items|
      invariant Found(items, start, first, end, back)
      invariant forall i, l ::
        0 <= i < s && l in GotosOf(items[i].stmt) ==> Counted(indexes, i, l, start, first, end, back)
    {
      start, first, end, back := CountGotos(items, s, indexes, start, first, end, back);
    }
    BoundsExact(items, indexes, start, first, end, back);
    if !back || start != idx || end < first || first == |items| {
      if back { ClusterBounds(items); }
      return None;
    }
    var labels := LabelsFrom(items, first, end);
    cluster := Some(StateCluster(idx, first, end, labels));
  }

  method LabelsFrom(items: seq<Item>, first: nat, end: nat) returns (labels: seq<nat>)
    requires first <= end < |items|
    ensures forall p :: p in labels <==> first <= p <= end && items[p].lab.Some?
    ensures forall i, j :: 0 <= i < j < |labels| ==> labels[i] < labels[j]
  {
    labels := [];
    for p := first to end + 1
      invariant forall q :: q in labels <==> first <= q < p && items[q].lab.Some?
      invariant forall i :: 0 <= i < |labels| ==> labels[i] < p
      invariant forall i, j :: 0 <= i < j < |labels| ==> labels[i] < labels[j]
    {
      if items[p].lab.Some? { labels := labels + [p]; }
    }
  }

  // ----- backward spans -----

  /** `spans` holds the last backward goto of each label among the first `n` statements. */
  ghost predicate LastGotos(items: seq<Item>, spans: map<Label, nat>, n: nat)
    requires n <= |items|
  {
    forall l :: (if l in spans then LastBackward(items, l, n) == Some(spans[l]) else LastBackward(items, l, n) == None)
  }

  /** The callback over the gotos of statement `s`. */
  method MarkGotos(gotos: seq<Label>, seen: set<Label>, s: nat, before: map<Label, nat>)
    returns (spans: map<Label, nat>)
    ensures forall l :: l in spans <==> l in before || (l in gotos && l in seen)
    ensures forall l :: l in spans ==> spans[l] == if l in gotos && l in seen then s else before[l]
  {
    spans := before;
    for j := 0 to |gotos|
      invariant forall l :: l in spans <==> l in before || (l in gotos[..j] && l in seen)
      invariant forall l :: l in spans ==> spans[l] == if l in gotos[..j] && l in seen then s else before[l]
    {
      if gotos[j] in seen { spans := spans[gotos[j] := s]; }
    }
    assert gotos[..|gotos|] == gotos;
  }

  method BackwardGotoLabelSpans(items: seq<Item>) returns (spans: map<Label, nat>)
    ensures forall l :: if l in spans then BackwardEnd(items, l) == Some(spans[l]) else BackwardEnd(items, l) == None
  {
    hide GotosOf;
    var seen: set<Label> := {};
    spans := map[];
    for s := 0 to |items|
      invariant forall l :: l in seen <==> s > 0 && LabelSeen(items, l, s - 1)
      invariant LastGotos(items, spans, s)
    {
      ghost var before := seen;
      if items[s].lab.Some? { seen := seen + {items[s].lab.value}; }
      forall l ensures l in seen <==> LabelSeen(items, l, s) { SeenNext(items, l, s, before); }
      spans := MarkGotos(GotosOf(items[s].stmt), seen, s, spans);
    }
    spans := OverReturns(items, spans);
  }

  lemma {:induction false} EndsOf(items: seq<Item>, last: map<Label, nat>)
    requires LastGotos(items, last, |items|)
    ensures forall l :: l !in last ==> BackwardEnd(items, l) == None
    ensures forall l :: l in last ==>
      BackwardEnd(items, l) == Some(if PlainReturnAt(items, last[l] + 1) then last[l] + 1 else last[l])
  {
  }

  method OverReturns(items: seq<Item>, last: map<Label, nat>) returns (spans: map<Label, nat>)
    requires LastGotos(items, last, |items|)
    ensures forall l :: if l in spans then BackwardEnd(items, l) == Some(spans[l]) else BackwardEnd(items, l) == None
  {
    hide LastGotos, BackwardEnd;
    spans := last;
    EndsOf(items, last);
    var rest := spans.Keys;
    while rest != {}
      invariant rest <= spans.Keys == last.Keys
      invariant forall l :: l in rest ==> spans[l] == last[l]
      invariant forall l :: l in last && l !in rest ==> BackwardEnd(items, l) == Some(spans[l])
      decreases |rest|
    {
      var l :| l in rest;
      var i := spans[l];
      if i + 1 < |items| && items[i + 1].lab.None? && items[i + 1].stmt.Return? {
        spans := spans[l := i + 1];
      }
      rest := rest - {l};
    }
  }

  lemma {:induction false} SeenNext(items: seq<Item>, l: Label, s: nat, seen: set<Label>)
    requires s < |items| && (l in seen <==> s > 0 && LabelSeen(items, l, s - 1))
    ensures LabelSeen(items, l, s) <==> l in seen || items[s].lab == Some(l)
  {
    if LabelSeen(items, l, s) {
      var p :| 0 <= p < |items| && p <= s && items[p].lab == Some(l);
      if p < s { assert LabelSeen(items, l, s - 1); }
    }
    if s > 0 && LabelSeen(items, l, s - 1) {
      var p :| 0 <= p < |items| && p <= s - 1 && items[p].lab == Some(l);
    }
  }

  // ----- forward spans -----

  datatype Span = Span(lab: Label, start: nat, labelIdx: nat)

  /** `spans` maps the label of every forward span to it. */
  ghost predicate ForwardSpans(items: seq<Item>, spans: map<Label, Span>)
  {
    && (forall l :: l in spans ==>
          spans[l].lab == l && spans[l].labelIdx < |items| && items[spans[l].labelIdx].lab == Some(l) &&
          ForwardStart(items, spans[l].labelIdx) == Some(spans[l].start))
    && (forall p :: 0 <= p < |items| && ForwardStart(items, p).Some? ==> items[p].lab.value in spans)
  }

  ghost predicate ForwardIndexes(items: seq<Item>, indexes: map<Label, nat>)
  {
    && (forall l :: l in indexes ==>
        indexes[l] < |items| && items[indexes[l]].lab == Some(l) && !BackwardLabelAt(items, indexes[l]))
    && (forall p :: 0 <= p < |items| && items[p].lab.Some? && !BackwardLabelAt(items, p) ==>
        items[p].lab.value in indexes)
  }

  method ForwardLabels(items: seq<Item>, backward: map<Label, nat>) returns (indexes: map<Label, nat>)
    requires forall l :: l in backward <==> BackwardEnd(items, l).Some?
    ensures ForwardIndexes(items, indexes)
  {
    hide BackwardEnd;
    indexes := map[];
    for i := 0 to |items|
      invariant forall l ::
        l in indexes ==> indexes[l] < i && items[indexes[l]].lab == Some(l) && !BackwardLabelAt(items, indexes[l])
      invariant forall p ::
        0 <= p < i && items[p].lab.Some? && !BackwardLabelAt(items, p) ==> items[p].lab.value in indexes
    {
      if items[i].lab.Some? && items[i].lab.value !in backward {
        indexes := indexes[items[i].lab.value := i];
      }
    }
  }

  method ForwardGotoLabelSpans(items: seq<Item>, backward: map<Label, nat>) returns (spans: map<Label, Span>)
    requires Distinct(LabelsIn(items))
    requires forall l :: l in backward <==> BackwardEnd(items, l).Some?
    ensures ForwardSpans(items, spans)
  {
    hide GotosOf, LabelsIn, BackwardEnd, ForwardIndexes, ForwardSpans, SpanOk;
    var indexes := ForwardLabels(items, backward);
    spans := map[];
    for s := 0 to |items|
      invariant SpansUpTo(items, indexes, spans, s)
    {
      spans := FirstGotos(items, indexes, spans, s);
    }
    SpansExact(items, indexes, spans);
  }

  /** The callback over the gotos of statement `s`. */
  method FirstGotos(items: seq<Item>, indexes: map<Label, nat>, before: map<Label, Span>, s: nat)
    returns (spans: map<Label, Span>)
    requires s < |items| && SpansUpTo(items, indexes, before, s)
    ensures SpansUpTo(items, indexes, spans, s + 1)
  {
    hide GotosOf;
    var gotos := GotosOf(items[s].stmt);
    spans := before;
    for j := 0 to |gotos|
      invariant forall l :: l in before ==> l in spans && spans[l].start <= before[l].start
      invariant forall l :: l in spans ==> SpanOk(items, indexes, spans, l)
      invariant forall l :: l in gotos[..j] && l in indexes && s < indexes[l] ==> l in spans && spans[l].start <= s
    {
      var l := gotos[j];
      if l in indexes && indexes[l] > s {
        if l !in spans || s < spans[l].start { spans := spans[l := Span(l, s, indexes[l])]; }
      }
    }
    assert gotos[..|gotos|] == gotos;
  }

  ghost predicate SpanOk(items: seq<Item>, indexes: map<Label, nat>, spans: map<Label, Span>, l: Label)
    requires l in spans
  {
    l in indexes && spans[l].lab == l && spans[l].labelIdx == indexes[l] && spans[l].start < indexes[l] &&
    GotoAt(items, spans[l].start, l)
  }

  ghost predicate SpansUpTo(items: seq<Item>, indexes: map<Label, nat>, spans: map<Label, Span>, s: nat)
  {
    && (forall l :: l in spans ==> SpanOk(items, indexes, spans, l))
    && (forall i, l :: 0 <= i < s && GotoAt(items, i, l) && l in indexes && i < indexes[l] ==>
        l in spans && spans[l].start <= i)
  }

  lemma {:induction false} SpansExact(items: seq<Item>, indexes: map<Label, nat>, spans: map<Label, Span>)
    requires Distinct(LabelsIn(items)) && ForwardIndexes(items, indexes) && SpansUpTo(items, indexes, spans, |items|)
    ensures ForwardSpans(items, spans)
  {
    forall l | l in spans ensures ForwardStart(items, spans[l].labelIdx) == Some(spans[l].start) {
      assert SpanOk(items, indexes, spans, l);
      var s := ForwardStart(items, indexes[l]);
      assert s.Some?;
      assert GotoAt(items, s.value, l);
    }
    forall p | 0 <= p < |items| && ForwardStart(items, p).Some? ensures items[p].lab.value in spans {
      var l := items[p].lab.value;
      LabelOnce(items, p, indexes[l], l);
      assert GotoAt(items, ForwardStart(items, p).value, l);
    }
  }

  // ----- forward groups -----

  datatype SpanGroup = SpanGroup(start: nat, labelIdx: nat, spans: seq<Span>)

  /** `chosen` contains the spans that start at `start`, and every span that starts in front of
      a label it contains. */
  ghost predicate ClosedGroup(spans: map<Label, Span>, start: nat, chosen: set<Label>)
  {
    && chosen <= spans.Keys
    && (forall l :: l in spans && spans[l].start == start ==> l in chosen)
    && (forall l, m :: l in spans && m in chosen && start <= spans[l].start < spans[m].labelIdx ==> l in chosen)
  }

  ghost predicate LeastGroup(spans: map<Label, Span>, start: nat, chosen: set<Label>)
  {
    ClosedGroup(spans, start, chosen) && forall other :: ClosedGroup(spans, start, other) ==> chosen <= other
  }

  /** `list` holds the chosen spans, each once. */
  ghost predicate Lists(spans: map<Label, Span>, chosen: set<Label>, list: seq<Span>)
  {
    && (forall x :: x in list ==> x.lab in chosen && x.lab in spans && spans[x.lab] == x)
    && (forall l :: l in chosen ==> l in spans && spans[l] in list)
    && Different(list)
  }

  predicate Different(list: seq<Span>)
  {
    forall i, j :: 0 <= i < j < |list| ==> list[i] != list[j]
  }

  ghost predicate LastOf(spans: map<Label, Span>, chosen: set<Label>, last: int)
  {
    && (forall l :: l in chosen ==> l in spans && spans[l].labelIdx <= last)
    && (if chosen == {} then last == -1 else exists l :: l in chosen && l in spans && spans[l].labelIdx == last)
  }

  ghost predicate Keyed(spans: map<Label, Span>)
  {
    forall l :: l in spans ==> spans[l].lab == l
  }

  /** The state of the group while it is built. */
  ghost predicate Building(spans: map<Label, Span>, start: nat, included: set<Label>, list: seq<Span>, last: int)
  {
    Lists(spans, included, list) && LastOf(spans, included, last) &&
    forall other :: ClosedGroup(spans, start, other) ==> included <= other
  }

  lemma {:induction false} Include(spans: map<Label, Span>, start: nat, included: set<Label>, list: seq<Span>,
                                   last: int, l: Label)
    requires Keyed(spans) && Building(spans, start, included, list, last) && l in spans && l !in included
    requires spans[l].start == start || (start <= spans[l].start < last && included != {})
    ensures Building(spans, start, included + {l}, list + [spans[l]],
                     if spans[l].labelIdx > last then spans[l].labelIdx else last)
  {
    var more := list + [spans[l]];
    forall m | m in included + {l} ensures spans[m] in more {
      if m == l { assert more[|list|] == spans[l]; } else { assert spans[m] in list; }
    }
    assert l in included + {l};
    if included != {} {
      var m :| m in included && m in spans && spans[m].labelIdx == last;
      assert m in included + {l};
    }
  }

  predicate Before(a: Span, b: Span)
  {
    a.labelIdx < b.labelIdx || (a.labelIdx == b.labelIdx && Leq(a.lab, b.lab))
  }

  predicate Sorted(list: seq<Span>)
  {
    forall i, j :: 0 <= i < j < |list| ==> Before(list[i], list[j])
  }

  /** The library sort (slices.SortFunc). */
  function SortSpans(list: seq<Span>): (r: seq<Span>)
    ensures Sorted(r) && multiset(r) == multiset(list)
  {
    if list == [] then [] else
      assert list == [list[0]] + list[1..];
      Insert(list[0], SortSpans(list[1..]))
  }

  function Insert(x: Span, list: seq<Span>): (r: seq<Span>)
    requires Sorted(list)
    ensures Sorted(r) && multiset(r) == multiset(list) + multiset{x}
  {
    if list == [] then [x]
    else if Before(x, list[0]) then
      InsertFirst(x, list);
      [x] + list
    else
      assert list == [list[0]] + list[1..];
      var rest := Insert(x, list[1..]);
      InsertLater(x, list[0], list[1..], rest);
      [list[0]] + rest
  }

  lemma {:induction false} InsertFirst(x: Span, list: seq<Span>)
    requires Sorted(list) && list != [] && Before(x, list[0])
    ensures Sorted([x] + list)
  {
    forall j | 0 <= j < |list| ensures Before(x, list[j]) {
      if j > 0 {
        assert Before(list[0], list[j]);
        if x.labelIdx == list[0].labelIdx == list[j].labelIdx { LeqTransitive(x.lab, list[0].lab, list[j].lab); }
      }
    }
  }

  lemma {:induction false} InsertLater(x: Span, first: Span, list: seq<Span>, rest: seq<Span>)
    requires Sorted([first] + list) && Sorted(rest) && multiset(rest) == multiset(list) + multiset{x}
    requires !Before(x, first)
    ensures Sorted([first] + rest)
  {
    LeqTotal(x.lab, first.lab);
    forall j | 0 <= j < |rest| ensures Before(first, rest[j]) {
      assert rest[j] in multiset(rest);
      if rest[j] != x {
        assert rest[j] in multiset(list);
        var k :| 0 <= k < |list| && list[k] == rest[j];
        assert Before(([first] + list)[0], ([first] + list)[k + 1]);
      }
    }
  }

  lemma {:induction false} SortedLists(spans: map<Label, Span>, chosen: set<Label>, list: seq<Span>)
    requires Lists(spans, chosen, list)
    ensures Lists(spans, chosen, SortSpans(list))
  {
    hide Sorted;
    var r := SortSpans(list);
    forall x ensures x in r <==> x in list { assert x in multiset(r) <==> x in multiset(list); }
    SortKeepsDifferent(list);
  }

  lemma {:induction false} SortKeepsDifferent(list: seq<Span>)
    requires Different(list)
    ensures Different(SortSpans(list))
  {
    hide Sorted;
    if list != [] {
      var rest := SortSpans(list[1..]);
      SortKeepsDifferent(list[1..]);
      assert list[0] !in list[1..] by {
        forall k | 0 <= k < |list[1..]| ensures list[1..][k] != list[0] { assert list[0] != list[k + 1]; }
      }
      assert list[0] in rest <==> list[0] in multiset(list[1..]) by {
        assert list[0] in rest <==> list[0] in multiset(rest);
      }
      InsertKeepsDifferent(list[0], rest);
    }
  }

  lemma {:induction false} InsertKeepsDifferent(x: Span, list: seq<Span>)
    requires Sorted(list) && Different(list) && x !in list
    ensures Different(Insert(x, list))
  {
    if list != [] && !Before(x, list[0]) {
      var rest := Insert(x, list[1..]);
      InsertKeepsDifferent(x, list[1..]);
      forall j | 0 <= j < |rest| ensures rest[j] != list[0] {
        assert rest[j] in multiset(rest);
        if rest[j] != x { assert rest[j] in multiset(list[1..]); }
      }
    }
  }

  lemma {:induction false} NothingYet(spans: map<Label, Span>, start: nat)
    ensures Building(spans, start, {}, [], -1)
  {
  }

  lemma {:induction false} SameEmptiness(spans: map<Label, Span>, start: nat, included: set<Label>, list: seq<Span>,
                                         last: int)
    requires Building(spans, start, included, list, last)
    ensures list == [] <==> included == {}
  {
    if list != [] { assert list[0] in list && list[0].lab in included; }
  }

  lemma {:induction false} GroupDone(spans: map<Label, Span>, start: nat, included: set<Label>, list: seq<Span>,
                                     last: int)
    requires Building(spans, start, included, list, last) && included != {}
    requires forall l :: l in spans && spans[l].start == start ==> l in included
    requires forall l :: l in spans ==> l in included || !(start <= spans[l].start < last)
    ensures LeastGroup(spans, start, included) && Lists(spans, included, list) && LastOf(spans, included, last) &&
      last >= 0
  {
  }

  /** One traversal of the spans. */
  method PullIn(spans: map<Label, Span>, start: nat, included0: set<Label>, list0: seq<Span>, last0: int)
    returns (included: set<Label>, list: seq<Span>, last: int, changed: bool)
    requires Keyed(spans) && included0 != {} && Building(spans, start, included0, list0, last0)
    ensures included0 <= included <= spans.Keys && Building(spans, start, included, list, last)
    ensures changed <==> included != included0
    ensures !changed ==> last == last0 && forall l :: l in spans ==> l in included || !(start <= spans[l].start < last)
  {
    hide Lists, LastOf, ClosedGroup;
    included, list, last, changed := included0, list0, last0, false;
    var rest := spans.Keys;
    while rest != {}
      invariant rest <= spans.Keys && included0 <= included
      invariant included != {} && Building(spans, start, included, list, last)
      invariant changed <==> included != included0
      invariant !changed ==>
        last == last0 && forall l :: l in spans && l !in rest ==> l in included || !(start <= spans[l].start < last)
      decreases |rest|
    {
      var l :| l in rest;
      rest := rest - {l};
      if l !in included && start <= spans[l].start < last {
        Include(spans, start, included, list, last, l);
        included, list := included + {l}, list + [spans[l]];
        if spans[l].labelIdx > last { last := spans[l].labelIdx; }
        changed := true;
      }
    }
    assert included <= spans.Keys by { InKeys(spans, start, included, list, last); }
  }

  lemma {:induction false} InKeys(spans: map<Label, Span>, start: nat, included: set<Label>, list: seq<Span>, last: int)
    requires Building(spans, start, included, list, last)
    ensures included <= spans.Keys
  {
  }

  /** The spans that start at `start` and all that are jumped to from inside the group; the maps
      may be traversed in any order. */
  method ForwardGotoLabelGroupAt(start: nat, spans: map<Label, Span>)
    returns (group: Option<SpanGroup>, ghost chosen: set<Label>)
    requires Keyed(spans)
    ensures group.Some? <==> exists l :: l in spans && spans[l].start == start
    ensures group.Some? ==>
      LeastGroup(spans, start, chosen) && Lists(spans, chosen, group.value.spans) && Sorted(group.value.spans) &&
      group.value.start == start && LastOf(spans, chosen, group.value.labelIdx)
  {
    hide Lists, LeastGroup;
    var included: set<Label>, list: seq<Span>, last: int := {}, [], -1;
    assert Building(spans, start, included, list, last) by { NothingYet(spans, start); }
    var rest := spans.Keys;
    while rest != {}
      invariant rest <= spans.Keys
      invariant Building(spans, start, included, list, last)
      invariant forall l :: l in spans && l !in rest && spans[l].start == start ==> l in included
      invariant forall l :: l in included ==> l !in rest && spans[l].start == start
      decreases |rest|
    {
      var l :| l in rest;
      rest := rest - {l};
      if spans[l].start == start {
        Include(spans, start, included, list, last, l);
        included, list := included + {l}, list + [spans[l]];
        if spans[l].labelIdx > last { last := spans[l].labelIdx; }
      }
    }
    chosen := included;
    SameEmptiness(spans, start, included, list, last);
    if list == [] { return None, chosen; }
    var changed := true;
    while changed
      invariant included != {} && Building(spans, start, included, list, last)
      invariant forall l :: l in spans && spans[l].start == start ==> l in included
      invariant !changed ==> forall l :: l in spans ==> l in included || !(start <= spans[l].start < last)
      decreases |spans.Keys - included|, if changed then 1 else 0
    {
      ghost var before := included;
      included, list, last, changed := PullIn(spans, start, included, list, last);
      if changed { FewerLeft(spans.Keys, before, included); }
    }
    chosen := included;
    GroupDone(spans, start, chosen, list, last);
    SortedLists(spans, chosen, list);
    group := Some(SpanGroup(start, last, SortSpans(list)));
  }

  // ----- the group of the specification is the least one -----

  /** The group that is built is the one whose blocks the lowering nests: its labels are those
      jumped to from inside the least closed range. */
  lemma {:induction false} GroupIsLeast(items: seq<Item>, spans: map<Label, Span>, start: nat, chosen: set<Label>,
                                        last: nat)
    requires ForwardSpans(items, spans) && Distinct(LabelsIn(items)) && LeastGroup(spans, start, chosen)
    requires LastOf(spans, chosen, last)
    requires exists l :: l in spans && spans[l].start == start
    ensures LastStarting(items, start, |items|).Some?
    ensures last == GroupEnd(items, start, LastStarting(items, start, |items|).value)
    ensures chosen == GroupLabels(items, start, last)
  {
    hide ForwardStart, LabelsIn, BackwardLabelAt;
    var s :| s in spans && spans[s].start == start;
    var p := LastStarting(items, start, |items|).value;
    var end := GroupEnd(items, start, p);
    EndCloses(items, spans, start, end, p);
    assert chosen <= GroupLabels(items, start, end);
    LastCloses(items, spans, start, chosen, last, p);
    assert end <= last;
    SameGroup(items, spans, start, chosen, last, end);
  }

  lemma {:induction false} SameGroup(items: seq<Item>, spans: map<Label, Span>, start: nat, chosen: set<Label>,
                                     last: nat, end: nat)
    requires ForwardSpans(items, spans) && Distinct(LabelsIn(items)) && ClosedGroup(spans, start, chosen)
    requires LastOf(spans, chosen, last)
    requires chosen <= GroupLabels(items, start, end) && GroupClosed(items, start, end) && end <= last && chosen != {}
    ensures last == end && chosen == GroupLabels(items, start, end)
  {
    hide ForwardSpans, LabelsIn, GroupClosed, GroupLabels, InGroup;
    var m :| m in chosen && m in spans && spans[m].labelIdx == last;
    GroupMembers(items, spans, start, end, m);
    forall l | l in GroupLabels(items, start, end) ensures l in chosen { GroupMembers(items, spans, start, end, l); }
  }

  /** Labels of a group as spans. */
  lemma {:induction false} GroupMembers(items: seq<Item>, spans: map<Label, Span>, start: nat, end: nat, l: Label)
    requires ForwardSpans(items, spans) && Distinct(LabelsIn(items)) && GroupClosed(items, start, end)
    ensures l in GroupLabels(items, start, end) <==> l in spans && start <= spans[l].start < end
    ensures l in GroupLabels(items, start, end) ==>
      spans[l].labelIdx <= end && InGroup(items, start, end, spans[l].labelIdx)
  {
    if l in GroupLabels(items, start, end) {
      var p :| 0 <= p < |items| && InGroup(items, start, end, p) && items[p].lab.value == l;
      LabelOnce(items, p, spans[l].labelIdx, l);
      assert p <= end;
    }
    if l in spans && start <= spans[l].start < end {
      assert InGroup(items, start, end, spans[l].labelIdx);
    }
  }

  lemma {:induction false} EndCloses(items: seq<Item>, spans: map<Label, Span>, start: nat, end: nat, p: nat)
    requires ForwardSpans(items, spans) && Distinct(LabelsIn(items)) && GroupClosed(items, start, end)
    requires p <= end && p < |items| && ForwardStart(items, p) == Some(start)
    ensures ClosedGroup(spans, start, GroupLabels(items, start, end))
  {
    var all := GroupLabels(items, start, end);
    forall l
      ensures l in all <==> l in spans && start <= spans[l].start < end
    {
      GroupMembers(items, spans, start, end, l);
    }
    forall l, m | l in spans && m in all && start <= spans[l].start < spans[m].labelIdx ensures l in all {
      GroupMembers(items, spans, start, end, m);
    }
  }

  lemma {:induction false} LastCloses(items: seq<Item>, spans: map<Label, Span>, start: nat, chosen: set<Label>,
                                      last: nat, p: nat)
    requires ForwardSpans(items, spans) && Distinct(LabelsIn(items)) && ClosedGroup(spans, start, chosen)
    requires LastOf(spans, chosen, last)
    requires p < |items| && ForwardStart(items, p) == Some(start)
    ensures p <= last && GroupClosed(items, start, last)
  {
    var l := items[p].lab.value;
    LabelOnce(items, p, spans[l].labelIdx, l);
    assert l in chosen;
    var m :| m in chosen && m in spans && spans[m].labelIdx == last;
    forall q | last < q < |items| ensures !InGroup(items, start, last, q) {
      if InGroup(items, start, last, q) { PulledIn(items, spans, start, chosen, last, m, q); }
    }
  }

  lemma {:induction false} PulledIn(items: seq<Item>, spans: map<Label, Span>, start: nat, chosen: set<Label>,
                                    last: nat, m: Label, q: nat)
    requires ForwardSpans(items, spans) && Distinct(LabelsIn(items)) && ClosedGroup(spans, start, chosen)
    requires LastOf(spans, chosen, last)
    requires m in chosen && m in spans && spans[m].labelIdx == last && InGroup(items, start, last, q)
    ensures q <= last
  {
    var l := items[q].lab.value;
    LabelOnce(items, q, spans[l].labelIdx, l);
    assert l in chosen;
  }
}
