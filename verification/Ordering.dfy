/** Strings in the order of strings.Compare, and sorting by it. */
module Ordering {

  predicate Leq(a: string, b: string)
  {
    a == [] || (b != [] && (a[0] < b[0] || (a[0] == b[0] && Leq(a[1..], b[1..]))))
  }

  lemma {:induction false} LeqRefl(a: string)
    ensures Leq(a, a)
  {
    if a != [] { LeqRefl(a[1..]); }
  }

  lemma {:induction false} LeqTotal(a: string, b: string)
    ensures Leq(a, b) || Leq(b, a)
  {
    if a != [] && b != [] { LeqTotal(a[1..], b[1..]); }
  }

  lemma {:induction false} LeqTransitive(a: string, b: string, c: string)
    requires Leq(a, b) && Leq(b, c)
    ensures Leq(a, c)
  {
    if a != [] && b != [] && c != [] && a[0] == b[0] == c[0] { LeqTransitive(a[1..], b[1..], c[1..]); }
  }

  /** A path comes before its extensions. */
  lemma {:induction false} PrefixFirst(a: string, b: string)
    requires a < b
    ensures !Leq(b, a)
  {
    if a != [] {
      assert b[0] == a[0];
      assert a[1..] < b[1..];
      PrefixFirst(a[1..], b[1..]);
    }
  }

  /** The library sort (slices.Sort). */
  function SortStrings(list: seq<string>): (r: seq<string>)
    ensures |r| == |list|
    ensures forall x :: x in r <==> x in list
  {
    if list == [] then []
    else
      assert forall x :: x in list <==> x == list[0] || x in list[1..];
      InsertString(list[0], SortStrings(list[1..]))
  }

  function InsertString(s: string, list: seq<string>): (r: seq<string>)
    ensures |r| == |list| + 1
    ensures forall x :: x in r <==> x == s || x in list
  {
    if list == [] || Leq(s, list[0]) then [s] + list
    else
      assert forall x :: x in list <==> x == list[0] || x in list[1..];
      [list[0]] + InsertString(s, list[1..])
  }

  predicate Sorted(list: seq<string>)
  {
    forall i, j :: 0 <= i < j < |list| ==> Leq(list[i], list[j])
  }

  lemma {:induction false} InsertSorted(s: string, list: seq<string>)
    requires Sorted(list)
    ensures Sorted(InsertString(s, list))
  {
    if list != [] {
      if Leq(s, list[0]) {
        forall i | 0 <= i < |list| ensures Leq(s, list[i]) {
          if i > 0 { LeqTransitive(s, list[0], list[i]); }
        }
      } else {
        LeqTotal(s, list[0]);
        var rest := InsertString(s, list[1..]);
        InsertSorted(s, list[1..]);
        forall i | 0 <= i < |rest| ensures Leq(list[0], rest[i]) { assert rest[i] in rest; }
      }
    }
  }

  lemma {:induction false} SortSorted(list: seq<string>)
    ensures Sorted(SortStrings(list))
  {
    if list != [] {
      SortSorted(list[1..]);
      InsertSorted(list[0], SortStrings(list[1..]));
    }
  }

  // ----- sequences of strings -----

  /** Word by word. */
  predicate SeqLeq(a: seq<string>, b: seq<string>)
  {
    a == [] || (b != [] && if a[0] == b[0] then SeqLeq(a[1..], b[1..]) else Leq(a[0], b[0]))
  }

  lemma {:induction false} LeqAntisymmetric(a: string, b: string)
    requires Leq(a, b) && Leq(b, a)
    ensures a == b
  {
    if a != [] {
      LeqAntisymmetric(a[1..], b[1..]);
      assert a == [a[0]] + a[1..] && b == [b[0]] + b[1..];
    }
  }

  lemma {:induction false} SeqLeqRefl(a: seq<string>)
    ensures SeqLeq(a, a)
  {
    if a != [] { SeqLeqRefl(a[1..]); }
  }

  lemma {:induction false} SeqLeqTransitive(a: seq<string>, b: seq<string>, c: seq<string>)
    requires SeqLeq(a, b) && SeqLeq(b, c)
    ensures SeqLeq(a, c)
  {
    if a != [] {
      if a[0] == b[0] == c[0] {
        SeqLeqTransitive(a[1..], b[1..], c[1..]);
      } else if a[0] != b[0] && b[0] != c[0] {
        LeqTransitive(a[0], b[0], c[0]);
        if a[0] == c[0] { LeqAntisymmetric(a[0], b[0]); }
      }
    }
  }

  /** Of two sequences of one length, an earlier one stays in front when both are extended, and equal ones
      are ordered by their extensions. */
  lemma {:induction false} SeqLeqMore(a: seq<string>, b: seq<string>, x: string, y: string)
    requires |a| == |b| && SeqLeq(a, b) && (a == b ==> Leq(x, y))
    ensures SeqLeq(a + [x], b + [y])
  {
    if a != [] {
      assert (a + [x])[1..] == a[1..] + [x] && (b + [y])[1..] == b[1..] + [y];
      if a[0] == b[0] {
        assert a[1..] == b[1..] ==> a == b by { assert a == [a[0]] + a[1..] && b == [b[0]] + b[1..]; }
        SeqLeqMore(a[1..], b[1..], x, y);
      }
    }
  }
}
