/** The lowering of a list lowers pieces of it as lists of their own. What holds of the list
    holds of its pieces. */
module Sublists {
  import opened GoSource
  import opened GotoAnalysis
  import opened SourceChecks

  /** `sub` is the piece of `items` from `a` on, possibly without its first label. */
  ghost predicate Part(items: seq<Item>, a: nat, sub: seq<Item>)
  {
    && a + |sub| <= |items|
    && forall i :: 0 <= i < |sub| ==> sub[i].stmt == items[a + i].stmt &&
                                      (sub[i].lab == items[a + i].lab || (i == 0 && sub[0].lab.None?))
  }

  predicate Distinct(labels: multiset<Label>)
  {
    forall l :: l in labels ==> labels[l] == 1
  }

  lemma {:induction false} LabelsConcat(a: seq<Item>, b: seq<Item>)
    ensures LabelsIn(a + b) == LabelsIn(a) + LabelsIn(b)
  {
    if a == [] {
      assert a + b == b;
    } else {
      assert (a + b)[1..] == a[1..] + b;
      LabelsConcat(a[1..], b);
    }
  }

  lemma {:induction false} LabelsOne(it: Item)
    ensures LabelsIn([it]) == ItemLabels(it)
  {
    assert [it][1..] == [];
  }

  lemma {:induction false} LabelsSplit(items: seq<Item>, a: nat, b: nat)
    requires a <= b <= |items|
    ensures LabelsIn(items) == LabelsIn(items[..a]) + LabelsIn(items[a..b]) + LabelsIn(items[b..])
  {
    assert items == (items[..a] + items[a..b]) + items[b..];
    LabelsConcat(items[..a] + items[a..b], items[b..]);
    LabelsConcat(items[..a], items[a..b]);
  }

  lemma {:induction false} LabelsAt(items: seq<Item>, k: nat)
    requires k < |items|
    ensures LabelsIn(items) == LabelsIn(items[..k]) + ItemLabels(items[k]) + LabelsIn(items[k + 1..])
  {
    LabelsSplit(items, k, k + 1);
    assert items[k..k + 1] == [items[k]];
    LabelsOne(items[k]);
  }

  /** A label of the list is declared once: at one position, and nowhere inside a statement. */
  lemma {:induction false} LabelOnce(items: seq<Item>, p: nat, q: nat, l: Label)
    requires Distinct(LabelsIn(items)) && p < |items| && q < |items| && items[p].lab == Some(l)
    ensures l in LabelsIn(items)
    ensures items[q].lab == Some(l) ==> p == q
    ensures l !in LabelsOf(items[q].stmt)
  {
    hide LabelsOf;
    LabelsAt(items, p);
    if q < p { LabelsAt(items[..p], q); } else if p < q {
      LabelsAt(items[p + 1..], q - p - 1);
    }
  }

  lemma {:induction false} PositionOf(items: seq<Item>, p: nat, l: Label)
    requires Distinct(LabelsIn(items)) && p < |items| && items[p].lab == Some(l)
    ensures HasLabel(items, l) && IndexOf(items, l) == p
  {
    LabelOnce(items, p, IndexOf(items, l), l);
  }

  lemma {:induction false} SliceLabels(items: seq<Item>, a: nat, b: nat)
    requires a <= b <= |items|
    ensures Part(items, a, items[a..b]) && LabelsIn(items[a..b]) <= LabelsIn(items)
  {
    LabelsSplit(items, a, b);
  }

  lemma {:induction false} TailLabels(items: seq<Item>, a: nat, b: nat)
    requires a < b <= |items|
    ensures ItemLabels(items[a]) + LabelsIn(items[a + 1..b]) <= LabelsIn(items)
  {
    var head, tail, rest := items[..a + 1], items[a + 1..b], items[b..];
    assert items == (head + tail) + rest;
    LabelsConcat(head + tail, rest);
    LabelsConcat(head, tail);
    LastLabels(items, a);
  }

  lemma {:induction false} LastLabels(items: seq<Item>, a: nat)
    requires a < |items|
    ensures ItemLabels(items[a]) <= LabelsIn(items[..a + 1])
  {
    assert items[..a + 1] == items[..a] + [items[a]];
    LabelsConcat(items[..a], [items[a]]);
    LabelsOne(items[a]);
  }

  lemma {:induction false} SegmentLabels(items: seq<Item>, a: nat, b: nat)
    requires a < b <= |items|
    ensures Part(items, a, Segment(items, a, b)) && LabelsIn(Segment(items, a, b)) <= LabelsIn(items)
    ensures items[a].lab.Some? && Distinct(LabelsIn(items)) ==> items[a].lab.value !in LabelsIn(Segment(items, a, b))
  {
    hide LabelsIn, LabelsOf;
    TailLabels(items, a, b);
    var head, tail := Item(None, items[a].stmt), items[a + 1..b];
    LabelsConcat([head], tail);
    LabelsOne(head);
    var m := LabelsIn(Segment(items, a, b));
    assert m == LabelsOf(items[a].stmt) + LabelsIn(tail);
    if items[a].lab.Some? { OnceAtMost(m, items[a].lab.value, LabelsIn(items)); }
  }

  lemma {:induction false} OnceAtMost(m: multiset<Label>, l: Label, all: multiset<Label>)
    requires m + multiset{l} <= all
    ensures Distinct(all) ==> l !in m
  {
    assert (m + multiset{l})[l] == m[l] + 1;
  }

  lemma {:induction false} DistinctBelow(a: multiset<Label>, b: multiset<Label>)
    requires a <= b && Distinct(b)
    ensures Distinct(a)
  {
  }

  // ----- gotos of the parts of a list -----

  lemma {:induction false} GotosOfItem(items: seq<Item>, k: nat)
    requires k < |items|
    ensures forall l :: l in GotosOf(items[k].stmt) ==> l in GotosIn(items)
  {
    forall l | l in GotosOf(items[k].stmt) ensures l in GotosIn(items) { GotosInAt(items, l); }
  }

  lemma {:induction false} GotosOfPart(items: seq<Item>, a: nat, seg: seq<Item>)
    requires Part(items, a, seg)
    ensures forall l :: l in GotosIn(seg) ==> l in GotosIn(items)
  {
    forall l | l in GotosIn(seg) ensures l in GotosIn(items) {
      GotosInAt(seg, l);
      var k :| 0 <= k < |seg| && l in GotosOf(seg[k].stmt);
      GotosOfItem(items, a + k);
    }
  }

  /** No goto of the list goes to a label of the list. */
  ghost predicate NoOwnGotos(items: seq<Item>)
  {
    forall i :: 0 <= i < |items| ==> !OwnGotoAt(items, i)
  }

  lemma {:induction false} SanePart(items: seq<Item>, a: nat, sub: seq<Item>, hasResult: bool)
    requires Part(items, a, sub) && SaneIn(items, hasResult)
    ensures SaneIn(sub, hasResult)
  {
    forall k | 0 <= k < |sub| ensures ItemSane(sub[k], hasResult) { SaneAt(items, a + k, hasResult); }
    forall p, k | 0 <= p < |sub| && 0 <= k < |sub| && p != k && sub[p].lab.Some?
      ensures !ItemBranchesTo(sub[k], sub[p].lab.value)
    {
      SaneAt(items, a + k, hasResult);
      assert items[a + p].lab == sub[p].lab;
    }
  }

  /** Without gotos to its own labels a list is lowered statement by statement. */
  lemma {:induction false} NoOwnPlain(items: seq<Item>, idx: nat)
    requires NoOwnGotos(items) && idx < |items|
    ensures ChunkAt(items, idx) == Plain
  {
    forall p | BackwardLabelAt(items, p) ensures false { OwnBackward(items, p); }
    if LastStarting(items, idx, |items|).Some? { StartingOwn(items, idx); }
  }

  lemma {:induction false} OwnBackward(items: seq<Item>, p: nat)
    requires BackwardLabelAt(items, p)
    ensures exists g :: 0 <= g < |items| && OwnGotoAt(items, g)
  {
    var g := LastBackward(items, items[p].lab.value, |items|).value;
    assert OwnGotoAt(items, g);
  }

  lemma {:induction false} PlainFaithful(f: Flow, items: seq<Item>, idx: nat)
    requires NoOwnGotos(items) && forall k :: 0 <= k < |items| ==> Faithful(f, items[k].stmt)
    ensures FaithfulFrom(f, items, idx)
    decreases |items| - idx
  {
    hide Faithful, NoOwnGotos;
    if idx < |items| {
      NoOwnPlain(items, idx);
      PlainFaithful(f, items, idx + 1);
    }
  }

  lemma {:induction false} FaithfulRangeAt(f: Flow, items: seq<Item>, i: nat, end: nat, k: nat)
    requires end < |items| && FaithfulRange(f, items, i, end) && i <= k <= end
    ensures Faithful(f, items[k].stmt)
    decreases k - i
  {
    hide Faithful;
    if i < k { FaithfulRangeAt(f, items, i + 1, end, k); }
  }

  // ----- how the traversal meets clusters -----

  /** Positions the traversal of a list can stand at. */
  ghost predicate Standing(items: seq<Item>, idx: nat)
  {
    JumpsBack(items) ==>
      if OneCluster(items) then idx <= FirstOwnGoto(items, 0) || idx > LastTouched(items, |items|)
      else idx <= FirstTarget(items, 0) || idx > FirstOwnGoto(items, 0)
  }

  lemma {:induction false} BackwardIsTarget(items: seq<Item>, p: nat)
    requires BackwardLabelAt(items, p) && Distinct(LabelsIn(items))
    ensures TargetAt(items, p)
    ensures var g := LastBackward(items, items[p].lab.value, |items|).value;
      p <= g <= BackwardEnd(items, items[p].lab.value).value && OwnGotoAt(items, g)
  {
    var l := items[p].lab.value;
    var g := LastBackward(items, l, |items|).value;
    var q :| 0 <= q < |items| && q <= g && items[q].lab == Some(l);
    LabelOnce(items, p, q, l);
    assert OwnGotoAt(items, g);
  }

  lemma {:induction false} TargetIsBackward(items: seq<Item>, p: nat, g: nat)
    requires p <= g && p < |items| && items[p].lab.Some? && GotoAt(items, g, items[p].lab.value)
    ensures BackwardLabelAt(items, p)
  {
    assert LabelSeen(items, items[p].lab.value, g);
  }

  lemma {:induction false} LeadingOwn(items: seq<Item>, idx: nat)
    requires LeadingAt(items, idx)
    ensures OwnGotoAt(items, idx)
  {
    var p :| idx + 1 <= p <= BackwardEnd(items, items[idx + 1].lab.value).value && p < |items| &&
      items[p].lab == Some(items[idx].stmt.lab);
    assert GotoAt(items, idx, items[p].lab.value);
  }

  lemma {:induction false} StartingOwn(items: seq<Item>, idx: nat)
    requires LastStarting(items, idx, |items|).Some?
    ensures OwnGotoAt(items, idx)
  {
    var p := LastStarting(items, idx, |items|).value;
    assert GotoAt(items, idx, items[p].lab.value);
  }

  lemma {:induction false} ClusterKind(items: seq<Item>, idx: nat)
    requires idx < |items| && Standing(items, idx) && JumpsBack(items)
    ensures ClusterAt(items, idx) ==> OneCluster(items)
    ensures OneCluster(items) && OwnGotoAt(items, idx) ==> ClusterAt(items, idx)
    ensures OneCluster(items) && TargetAt(items, idx) ==> ClusterAt(items, idx)
  {
    ClusterBounds(items);
  }

  /** At a chunk that is neither plain nor a cluster the list is not one cluster. */
  lemma {:induction false} ChunkKind(items: seq<Item>, idx: nat)
    requires idx < |items| && Standing(items, idx) && Distinct(LabelsIn(items))
    ensures var c := ChunkAt(items, idx);
            && (c.Leading? || c.Group? || c.Backward? ==> !OneCluster(items))
            && (c.Cluster? ==> OneCluster(items))
            && (c.Leading? || c.Group? ==> OwnGotoAt(items, idx))
            && (c.Backward? ==> BackwardLabelAt(items, idx))
            && (c.Leading? ==> LeadingAt(items, idx))
  {
    if JumpsBack(items) { ClusterKind(items, idx); }
    if ClusterAt(items, idx) {
    } else if LeadingAt(items, idx) {
      LeadingOwn(items, idx);
    } else if LastStarting(items, idx, |items|).Some? {
      StartingOwn(items, idx);
    } else if BackwardLabelAt(items, idx) {
      BackwardIsTarget(items, idx);
    }
  }

  lemma {:induction false} StandingNext(items: seq<Item>, idx: nat)
    requires idx < |items| && Standing(items, idx) && Distinct(LabelsIn(items))
    ensures Standing(items, NextIdx(ChunkAt(items, idx), idx))
  {
    var c := ChunkAt(items, idx);
    ChunkKind(items, idx);
    if JumpsBack(items) {
      if OneCluster(items) {
        if c.Plain? && idx <= FirstOwnGoto(items, 0) {
          assert idx < FirstOwnGoto(items, 0) by { ClusterBounds(items); }
        }
      } else if idx <= FirstTarget(items, 0) {
        ClusterBounds(items);
        if c.Plain? && idx == FirstTarget(items, 0) {
          var g :| 0 <= g < |items| && GotoAt(items, g, items[idx].lab.value);
          assert OwnGotoAt(items, g);
          TargetIsBackward(items, idx, g);
          assert false;
        }
        if c.Backward? { BackwardIsTarget(items, idx); }
      }
    }
  }

  lemma {:induction false} NoGotosAt(items: seq<Item>, k: nat)
    requires GotosIn(items) == [] && k < |items|
    ensures GotosOf(items[k].stmt) == []
  {
    if k > 0 { assert items[1..][k - 1] == items[k]; NoGotosAt(items[1..], k - 1); }
  }

  lemma {:induction false} NoGotosOwn(items: seq<Item>)
    requires GotosIn(items) == []
    ensures NoOwnGotos(items)
  {
    forall i | 0 <= i < |items| ensures !OwnGotoAt(items, i) { NoGotosAt(items, i); }
  }
}
