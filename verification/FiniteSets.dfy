/** Sizes of finite sets, for termination measures and counting arguments. */
module FiniteSets {

  lemma {:induction false} SubsetSize<T>(a: set<T>, b: set<T>)
    requires a <= b
    ensures |a| <= |b|
  {
    if a != {} {
      var x :| x in a;
      SubsetSize(a - {x}, b - {x});
    }
  }

  lemma {:induction false} SameSize<T>(a: set<T>, b: set<T>)
    requires a <= b && |a| == |b|
    ensures a == b
  {
    if x :| x in b && x !in a {
      assert a <= b - {x};
      SubsetSize(a, b - {x});
    }
  }

  /** The more of `all` is done, the less is left. */
  lemma {:induction false} FewerLeft<T>(all: set<T>, before: set<T>, after: set<T>)
    requires before < after <= all
    ensures |all - after| < |all - before|
  {
    var x :| x in after && x !in before;
    assert all - after <= all - before - {x};
    SubsetSize(all - after, all - before - {x});
  }

  lemma {:induction false} OneFewer<T>(all: set<T>, done: set<T>, x: T)
    requires x in all && x !in done
    ensures |all - (done + {x})| < |all - done|
  {
    assert all - done == (all - (done + {x})) + {x};
  }
}
