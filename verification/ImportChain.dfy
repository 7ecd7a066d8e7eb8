/** The search for a blocklisted package (compiler/package-graph.go). */
module ImportChain {
  import opened FiniteSets
  import opened Ordering

  /** A package: what it imports, and whether an override replaces it. */
  datatype Package = Package(imports: seq<string>, override: bool)

  type Packages = map<string, Package>

  /** The package itself or one below it. */
  predicate PathBlocked(path: string, blocked: string)
  {
    path == blocked || blocked + "/" <= path
  }

  /** A package below another is one of its own path segments deeper. */
  lemma {:induction false} BlockedExactly(path: string, blocked: string)
    ensures PathBlocked(path, blocked) <==> path == blocked || exists rest: string :: path == (blocked + "/") + rest
    ensures |path| > |blocked| && path[|blocked|] != '/' ==> !PathBlocked(path, blocked)
  {
    if blocked + "/" <= path { assert path == (blocked + "/") + path[|blocked| + 1..]; }
  }

  ghost predicate Blocked(path: string, blocklist: seq<string>)
  {
    exists b :: b in blocklist && PathBlocked(path, b)
  }

  /** The imports of an override package are not followed. */
  predicate Edge(g: Packages, a: string, b: string)
  {
    a in g && !g[a].override && b in g[a].imports && b in g
  }

  /** An import chain from a requested package. */
  ghost predicate IsChain(g: Packages, requested: seq<string>, chain: seq<string>)
  {
    chain != [] && chain[0] in requested && chain[0] in g &&
    forall i :: 0 <= i < |chain| - 1 ==> Edge(g, chain[i], chain[i + 1])
  }

  function Last(chain: seq<string>): string
    requires chain != []
  {
    chain[|chain| - 1]
  }

  ghost predicate BlockedChain(g: Packages, requested: seq<string>, blocklist: seq<string>, chain: seq<string>)
  {
    IsChain(g, requested, chain) && Blocked(Last(chain), blocklist)
  }

  // ----- the queue -----

  datatype QueueEntry = QueueEntry(path: string, chain: seq<string>)

  ghost predicate Queued(queue: seq<QueueEntry>, path: string)
  {
    exists i :: 0 <= i < |queue| && queue[i].path == path
  }

  /** The package is seen and no longer queued. */
  ghost predicate Explored(seen: set<string>, queue: seq<QueueEntry>, path: string)
  {
    path in seen && !Queued(queue, path)
  }

  /** Shorter, or of the same length and not behind in the order of the paths. */
  predicate First(a: seq<string>, b: seq<string>)
  {
    |a| < |b| || (|a| == |b| && SeqLeq(a, b))
  }

  /** The entry is the first of the shortest chains to its package. */
  ghost predicate EntryOk(g: Packages, requested: seq<string>, e: QueueEntry)
  {
    IsChain(g, requested, e.chain) && Last(e.chain) == e.path &&
    forall c :: IsChain(g, requested, c) && Last(c) == e.path ==> First(e.chain, c)
  }

  /** Chains of one length stand in order, and those that extend an explored one extend one in front of
      those that are still to be extended. */
  ghost predicate ChainsInOrder(queue: seq<QueueEntry>, d: nat)
  {
    && (forall i, j :: 0 <= i < j < |queue| && |queue[i].chain| == |queue[j].chain| ==>
          SeqLeq(queue[i].chain, queue[j].chain))
    && (forall i, j :: 0 <= i < |queue| && 0 <= j < |queue| && |queue[i].chain| == d && |queue[j].chain| == d + 1 ==>
          SeqLeq(queue[j].chain[..d], queue[i].chain) && queue[j].chain[..d] != queue[i].chain)
  }

  ghost predicate QueueOk(g: Packages, requested: seq<string>, seen: set<string>, queue: seq<QueueEntry>, d: nat)
  {
    && (forall i :: 0 <= i < |queue| ==>
        EntryOk(g, requested, queue[i]) && queue[i].path in seen && d <= |queue[i].chain| <= d + 1)
    && (forall i, j :: 0 <= i < j < |queue| ==> |queue[i].chain| <= |queue[j].chain| && queue[i].path != queue[j].path)
    && ChainsInOrder(queue, d)
  }

  /** Everything up to distance `d` is seen, and everything nearer is explored. */
  ghost predicate Reached(g: Packages, requested: seq<string>, seen: set<string>, queue: seq<QueueEntry>, d: nat)
  {
    forall c :: IsChain(g, requested, c) ==>
      (|c| <= d ==> Last(c) in seen) && (|c| < d ==> Explored(seen, queue, Last(c)))
  }

  /** Explored packages are not blocked, and their imports are seen. */
  ghost predicate Settled(g: Packages, blocklist: seq<string>, seen: set<string>, queue: seq<QueueEntry>)
  {
    forall x :: Explored(seen, queue, x) ==> !Blocked(x, blocklist) && forall y :: Edge(g, x, y) ==> y in seen
  }

  method PackagePathBlocklisted(path: string, blocklist: seq<string>) returns (b: bool)
    ensures b <==> Blocked(path, blocklist)
  {
    for i := 0 to |blocklist|
      invariant forall j :: 0 <= j < i ==> !PathBlocked(path, blocklist[j])
    {
      if PathBlocked(path, blocklist[i]) {
        assert blocklist[i] in blocklist;
        return true;
      }
    }
    b := false;
  }

  /** No chain, or of the shortest chains to a blocked package the first in the order of the paths, in
      whatever order packages are requested or imported. */
  method PackageBlocklistChain(g: Packages, requested: seq<string>, blocklist: seq<string>) returns (chain: seq<string>)
    ensures chain == [] ==> forall c :: !BlockedChain(g, requested, blocklist, c)
    ensures chain != [] ==> BlockedChain(g, requested, blocklist, chain)
    ensures chain != [] ==> forall c :: BlockedChain(g, requested, blocklist, c) ==> First(chain, c)
  {
    hide QueueOk, Reached, Settled, EntryOk, IsChain, Edge, Blocked, Queued;
    var queue, seen := Roots(g, requested);
    ghost var d := 1;
    RootsReach(g, requested, seen, queue, blocklist);
    while queue != []
      invariant seen <= g.Keys && QueueOk(g, requested, seen, queue, d) && Reached(g, requested, seen, queue, d) &&
        d >= 1
      invariant Settled(g, blocklist, seen, queue)
      decreases |g.Keys - seen|, |queue|
    {
      d := NextLevel(g, requested, blocklist, seen, queue, d);
      var entry := queue[0];
      var blocked := PackagePathBlocklisted(entry.path, blocklist);
      if blocked {
        NothingNearer(g, requested, blocklist, seen, queue, d);
        return entry.chain;
      }
      ghost var before := seen;
      queue, seen := Expand(g, requested, blocklist, queue, seen, d);
      if seen != before { FewerLeft(g.Keys, before, seen); }
    }
    AllSettled(g, requested, blocklist, seen, d);
    chain := [];
  }

  /** Those of `xs` that are in the graph are queued once each, in order. */
  ghost predicate RootsOk(g: Packages, xs: seq<string>, queue: seq<QueueEntry>, seen: set<string>)
  {
    && seen <= g.Keys
    && (forall i :: 0 <= i < |queue| ==>
          queue[i] == QueueEntry(queue[i].path, [queue[i].path]) && queue[i].path in xs && queue[i].path in seen)
    && (forall i, j :: 0 <= i < j < |queue| ==>
          queue[i].path != queue[j].path && Leq(queue[i].path, queue[j].path))
    && (forall x :: x in seen ==> Queued(queue, x))
    && (forall x :: x in xs && x in g ==> x in seen)
  }

  method Roots(g: Packages, requested: seq<string>) returns (queue: seq<QueueEntry>, seen: set<string>)
    ensures RootsOk(g, SortStrings(requested), queue, seen) && seen <= g.Keys
  {
    hide RootsOk, Sorted;
    var roots := SortStrings(requested);
    SortSorted(requested);
    queue, seen := [], {};
    RootsNone(g);
    for k := 0 to |roots|
      invariant RootsOk(g, roots[..k], queue, seen)
    {
      var root := roots[k];
      assert roots[..k + 1] == roots[..k] + [root];
      if root in g && root !in seen {
        forall y | y in roots[..k] ensures Leq(y, root) { SortedUpTo(roots, k, y); }
        RootsAdd(g, roots[..k], queue, seen, root);
        seen := seen + {root};
        queue := queue + [QueueEntry(root, [root])];
      } else {
        RootsSkip(g, roots[..k], queue, seen, root);
      }
    }
    assert roots[..|roots|] == roots;
    assert seen <= g.Keys by { RootsThere(g, roots, queue, seen); }
  }

  lemma {:induction false} RootsThere(g: Packages, xs: seq<string>, queue: seq<QueueEntry>, seen: set<string>)
    requires RootsOk(g, xs, queue, seen)
    ensures seen <= g.Keys
  {
  }

  lemma {:induction false} RootsNone(g: Packages)
    ensures RootsOk(g, [], [], {})
  {
  }

  lemma {:induction false} RootsSkip(g: Packages, xs: seq<string>, queue: seq<QueueEntry>, seen: set<string>, x: string)
    requires RootsOk(g, xs, queue, seen) && (x !in g || x in seen)
    ensures RootsOk(g, xs + [x], queue, seen)
  {
    hide Queued, Leq;
  }

  lemma {:induction false} RootsAdd(g: Packages, xs: seq<string>, queue: seq<QueueEntry>, seen: set<string>, x: string)
    requires RootsOk(g, xs, queue, seen) && x in g && x !in seen && forall y :: y in xs ==> Leq(y, x)
    ensures RootsOk(g, xs + [x], queue + [QueueEntry(x, [x])], seen + {x})
  {
    hide Queued, Leq;
    QueuedMore(queue, QueueEntry(x, [x]));
  }

  lemma {:induction false} QueuedMore(queue: seq<QueueEntry>, e: QueueEntry)
    ensures forall x :: Queued(queue + [e], x) <==> Queued(queue, x) || x == e.path
  {
    forall x ensures Queued(queue + [e], x) <==> Queued(queue, x) || x == e.path {
      assert (queue + [e])[|queue|] == e;
      if Queued(queue, x) {
        var i :| 0 <= i < |queue| && queue[i].path == x;
        assert (queue + [e])[i].path == x;
      }
    }
  }

  /** Removes the first entry and queues what it imports. */
  method Expand(g: Packages, ghost requested: seq<string>, ghost blocklist: seq<string>, queue0: seq<QueueEntry>,
                seen0: set<string>, ghost d: nat)
    returns (queue: seq<QueueEntry>, seen: set<string>)
    requires queue0 != [] && seen0 <= g.Keys && QueueOk(g, requested, seen0, queue0, d) && |queue0[0].chain| == d
    requires Reached(g, requested, seen0, queue0, d) && Settled(g, blocklist, seen0, queue0)
    requires !Blocked(queue0[0].path, blocklist)
    ensures seen0 <= seen <= g.Keys && QueueOk(g, requested, seen, queue, d) && Reached(g, requested, seen, queue, d)
    ensures Settled(g, blocklist, seen, queue)
    ensures seen == seen0 ==> |queue| < |queue0|
  {
    hide QueueOk, Reached, Settled, EntryOk, IsChain, Blocked, Queued, Sorted, ExtendsUpTo, First;
    var entry := queue0[0];
    queue, seen := queue0[1..], seen0;
    FirstIn(g, requested, seen0, queue0, d);
    var imports := if g[entry.path].override then [] else SortStrings(g[entry.path].imports);
    if !g[entry.path].override { SortSorted(g[entry.path].imports); }
    PopQueue(g, requested, seen0, queue0, d);
    ExtendsNone(g, requested, seen0, queue0, d);
    for k := 0 to |imports|
      invariant seen0 <= seen <= g.Keys && QueueOk(g, requested, seen, queue, d)
      invariant forall x :: x in seen && x !in seen0 ==> Queued(queue, x)
      invariant forall x :: x in seen0 ==> (Queued(queue, x) <==> Queued(queue0[1..], x))
      invariant seen == seen0 ==> queue == queue0[1..]
      invariant forall i :: 0 <= i < k && imports[i] in g ==> imports[i] in seen
      invariant ExtendsUpTo(queue, entry.chain, imports[..k], d)
    {
      var x := imports[k];
      assert x in imports;
      ExtendsMore(queue, entry, imports, k, d);
      if x in g && x !in seen {
        var next := QueueEntry(x, entry.chain + [x]);
        ChildOk(g, requested, blocklist, seen0, queue0, d, next);
        forall y | y in imports[..k] ensures Leq(y, x) { SortedUpTo(imports, k, y); }
        PushQueue(g, requested, seen, queue, d, entry.chain, imports[..k], next);
        QueuedMore(queue, next);
        seen := seen + {x};
        queue := queue + [next];
      }
    }
    assert forall y :: Edge(g, entry.path, y) ==> y in seen by {
      forall y | Edge(g, entry.path, y) ensures y in seen { assert y in imports; }
    }
    Expanded(g, requested, blocklist, queue0, seen0, queue, seen, d);
  }

  /** Among the entries behind the one with this chain, those of its length stand behind it, and those one
      longer extend an earlier chain, or this one by one of `xs`. */
  ghost predicate ExtendsUpTo(queue: seq<QueueEntry>, chain: seq<string>, xs: seq<string>, d: nat)
  {
    && (forall i :: 0 <= i < |queue| && |queue[i].chain| == d ==>
          SeqLeq(chain, queue[i].chain) && chain != queue[i].chain)
    && (forall i :: 0 <= i < |queue| && |queue[i].chain| == d + 1 ==>
          SeqLeq(queue[i].chain[..d], chain) && (queue[i].chain[..d] != chain || queue[i].path in xs))
  }

  lemma {:induction false} SortedUpTo(xs: seq<string>, k: nat, y: string)
    requires Sorted(xs) && k < |xs| && y in xs[..k]
    ensures Leq(y, xs[k])
  {
    var i :| 0 <= i < k && xs[..k][i] == y;
  }

  lemma {:induction false} ExtendsNone(g: Packages, requested: seq<string>, seen: set<string>, queue: seq<QueueEntry>,
                                       d: nat)
    requires queue != [] && QueueOk(g, requested, seen, queue, d) && |queue[0].chain| == d
    ensures ExtendsUpTo(queue[1..], queue[0].chain, [], d)
  {
    forall i | 0 <= i < |queue[1..]| && |queue[1..][i].chain| == d ensures queue[0].chain != queue[1..][i].chain {
      assert EntryOk(g, requested, queue[0]) && EntryOk(g, requested, queue[i + 1]);
    }
  }

  lemma {:induction false} FirstIn(g: Packages, requested: seq<string>, seen: set<string>, queue: seq<QueueEntry>,
                                   d: nat)
    requires queue != [] && QueueOk(g, requested, seen, queue, d)
    ensures queue[0].path in g
  {
    assert EntryOk(g, requested, queue[0]);
    LastIn(g, requested, queue[0].chain);
  }

  lemma {:induction false} LastIn(g: Packages, requested: seq<string>, chain: seq<string>)
    requires IsChain(g, requested, chain)
    ensures Last(chain) in g
  {
    if |chain| > 1 { assert Edge(g, chain[|chain| - 2], chain[|chain| - 2 + 1]); }
  }

  /** A chain of two or more packages is a shorter chain and one more edge. */
  lemma {:induction false} ChainStep(g: Packages, requested: seq<string>, chain: seq<string>)
    requires IsChain(g, requested, chain) && |chain| > 1
    ensures IsChain(g, requested, chain[..|chain| - 1]) && Edge(g, Last(chain[..|chain| - 1]), Last(chain))
  {
    assert Edge(g, chain[|chain| - 2], chain[|chain| - 2 + 1]);
  }

  lemma {:induction false} RootsReach(g: Packages, requested: seq<string>, seen: set<string>, queue: seq<QueueEntry>,
                                      blocklist: seq<string>)
    requires RootsOk(g, SortStrings(requested), queue, seen)
    ensures QueueOk(g, requested, seen, queue, 1) && Reached(g, requested, seen, queue, 1) &&
      Settled(g, blocklist, seen, queue)
  {
    forall i | 0 <= i < |queue| ensures EntryOk(g, requested, queue[i]) {
      SeqLeqRefl(queue[i].chain);
      forall c | IsChain(g, requested, c) && Last(c) == queue[i].path ensures First(queue[i].chain, c) {
        if |c| == 1 { assert c == queue[i].chain; }
      }
    }
  }

  /** The level of the first entry. When it is a new one, everything of the level before is explored. */
  lemma {:induction false} NextLevel(g: Packages, requested: seq<string>, blocklist: seq<string>, seen: set<string>,
                                     queue: seq<QueueEntry>, d: nat)
    returns (d1: nat)
    requires queue != [] && QueueOk(g, requested, seen, queue, d) && Reached(g, requested, seen, queue, d)
    requires Settled(g, blocklist, seen, queue) && d >= 1
    ensures d1 >= 1 && d1 == |queue[0].chain| && QueueOk(g, requested, seen, queue, d1) &&
      Reached(g, requested, seen, queue, d1)
  {
    d1 := |queue[0].chain|;
    if d1 == d + 1 {
      forall c | IsChain(g, requested, c) && |c| <= d ensures Explored(seen, queue, Last(c)) {
        if Queued(queue, Last(c)) { QueuedLength(g, requested, seen, queue, d, c); }
      }
      forall c | IsChain(g, requested, c) && |c| == d + 1 ensures Last(c) in seen {
        ChainStep(g, requested, c);
        assert Explored(seen, queue, Last(c[..|c| - 1]));
      }
    }
  }

  lemma {:induction false} QueuedLength(g: Packages, requested: seq<string>, seen: set<string>, queue: seq<QueueEntry>,
                                        d: nat, c: seq<string>)
    requires QueueOk(g, requested, seen, queue, d) && IsChain(g, requested, c) && Queued(queue, Last(c))
    ensures queue != [] && |queue[0].chain| <= |c|
  {
    var i :| 0 <= i < |queue| && queue[i].path == Last(c);
    assert EntryOk(g, requested, queue[i]);
  }

  lemma {:induction false} NearSettled(g: Packages, requested: seq<string>, blocklist: seq<string>, seen: set<string>,
                                       queue: seq<QueueEntry>, d: nat, c: seq<string>)
    requires Reached(g, requested, seen, queue, d) && Settled(g, blocklist, seen, queue) && IsChain(g, requested, c)
    requires |c| < d
    ensures !Blocked(Last(c), blocklist)
  {
    assert Explored(seen, queue, Last(c));
  }

  lemma {:induction false} NothingNearer(g: Packages, requested: seq<string>, blocklist: seq<string>, seen: set<string>,
                                         queue: seq<QueueEntry>, d: nat)
    requires queue != [] && QueueOk(g, requested, seen, queue, d) && Reached(g, requested, seen, queue, d)
    requires Settled(g, blocklist, seen, queue)
    requires d == |queue[0].chain| && Blocked(queue[0].path, blocklist)
    ensures BlockedChain(g, requested, blocklist, queue[0].chain)
    ensures forall c :: BlockedChain(g, requested, blocklist, c) ==> First(queue[0].chain, c)
  {
    assert EntryOk(g, requested, queue[0]);
    forall c | BlockedChain(g, requested, blocklist, c) ensures First(queue[0].chain, c) {
      if |c| < d { NearSettled(g, requested, blocklist, seen, queue, d, c); }
      if |c| == d { FirstOfLevel(g, requested, blocklist, seen, queue, d, c); }
    }
  }

  /** The first entry of the queue stands in front of all chains of its length to packages that are not
      explored. */
  lemma {:induction false} FirstOfLevel(g: Packages, requested: seq<string>, blocklist: seq<string>, seen: set<string>,
                                        queue: seq<QueueEntry>, d: nat, c: seq<string>)
    requires queue != [] && QueueOk(g, requested, seen, queue, d) && Reached(g, requested, seen, queue, d)
    requires |queue[0].chain| == d == |c| && IsChain(g, requested, c) && !Explored(seen, queue, Last(c))
    ensures SeqLeq(queue[0].chain, c)
  {
    hide Edge;
    assert Last(c) in seen;
    var i :| 0 <= i < |queue| && queue[i].path == Last(c);
    assert EntryOk(g, requested, queue[i]);
    SeqLeqRefl(queue[0].chain);
    SeqLeqTransitive(queue[0].chain, queue[i].chain, c);
  }

  lemma {:induction false} AllSettled(g: Packages, requested: seq<string>, blocklist: seq<string>, seen: set<string>,
                                      d: nat)
    requires Reached(g, requested, seen, [], d) && Settled(g, blocklist, seen, []) && d >= 1
    ensures forall c :: !BlockedChain(g, requested, blocklist, c)
  {
    forall c ensures !BlockedChain(g, requested, blocklist, c) {
      if IsChain(g, requested, c) { EndsSeen(g, requested, blocklist, seen, d, c); assert Explored(seen, [], Last(c)); }
    }
  }

  lemma {:induction false} EndsSeen(g: Packages, requested: seq<string>, blocklist: seq<string>, seen: set<string>,
                                    d: nat, c: seq<string>)
    requires Reached(g, requested, seen, [], d) && Settled(g, blocklist, seen, []) && d >= 1 && IsChain(g, requested, c)
    ensures Last(c) in seen
    decreases |c|
  {
    if |c| > 1 {
      ChainStep(g, requested, c);
      EndsSeen(g, requested, blocklist, seen, d, c[..|c| - 1]);
      assert Explored(seen, [], Last(c[..|c| - 1]));
    }
  }

  lemma {:induction false} PopQueue(g: Packages, requested: seq<string>, seen: set<string>, queue: seq<QueueEntry>,
                                    d: nat)
    requires queue != [] && QueueOk(g, requested, seen, queue, d)
    ensures QueueOk(g, requested, seen, queue[1..], d)
    ensures forall x :: Queued(queue, x) <==> Queued(queue[1..], x) || x == queue[0].path
  {
    forall x ensures Queued(queue, x) <==> Queued(queue[1..], x) || x == queue[0].path {
      if Queued(queue, x) && x != queue[0].path {
        var i :| 0 <= i < |queue| && queue[i].path == x;
        assert queue[1..][i - 1].path == x;
      }
    }
  }

  lemma {:induction false} ChildOk(g: Packages, requested: seq<string>, blocklist: seq<string>, seen: set<string>,
                                   queue: seq<QueueEntry>, d: nat, next: QueueEntry)
    requires queue != [] && QueueOk(g, requested, seen, queue, d) && Reached(g, requested, seen, queue, d)
    requires |queue[0].chain| == d && Settled(g, blocklist, seen, queue)
    requires Edge(g, queue[0].path, next.path) && next.path !in seen && next.chain == queue[0].chain + [next.path]
    ensures EntryOk(g, requested, next) && |next.chain| == d + 1
  {
    hide Edge;
    assert EntryOk(g, requested, queue[0]);
    var chain := next.chain;
    forall i | 0 <= i < |chain| - 1 ensures Edge(g, chain[i], chain[i + 1]) {
      if i < d - 1 { assert Edge(g, queue[0].chain[i], queue[0].chain[i + 1]); }
    }
    forall c | IsChain(g, requested, c) && Last(c) == next.path ensures First(next.chain, c) {
      ChildFirst(g, requested, blocklist, seen, queue, d, next, c);
    }
  }

  lemma {:induction false} ChildFirst(g: Packages, requested: seq<string>, blocklist: seq<string>, seen: set<string>,
                                      queue: seq<QueueEntry>, d: nat, next: QueueEntry, c: seq<string>)
    requires queue != [] && QueueOk(g, requested, seen, queue, d) && Reached(g, requested, seen, queue, d)
    requires |queue[0].chain| == d && Settled(g, blocklist, seen, queue) && next.path !in seen
    requires next.chain == queue[0].chain + [next.path] && IsChain(g, requested, c) && Last(c) == next.path
    ensures First(next.chain, c)
  {
    hide QueueOk, Edge, IsChain, Queued;
    if |c| == d + 1 {
      ChainNonempty(g, requested, seen, queue, d);
      var front := c[..d];
      ChainStep(g, requested, c);
      FirstOfLevel(g, requested, blocklist, seen, queue, d, front);
      LeqRefl(next.path);
      SeqLeqMore(queue[0].chain, front, next.path, next.path);
      assert c == front + [next.path];
    }
  }

  lemma {:induction false} ChainNonempty(g: Packages, requested: seq<string>, seen: set<string>,
                                         queue: seq<QueueEntry>, d: nat)
    requires queue != [] && QueueOk(g, requested, seen, queue, d) && |queue[0].chain| == d
    ensures d >= 1
  {
    assert EntryOk(g, requested, queue[0]);
  }

  lemma {:induction false} ExtendsMore(queue: seq<QueueEntry>, entry: QueueEntry, xs: seq<string>, k: nat, d: nat)
    requires k < |xs| && ExtendsUpTo(queue, entry.chain, xs[..k], d) && |entry.chain| == d
    ensures ExtendsUpTo(queue, entry.chain, xs[..k + 1], d)
    ensures ExtendsUpTo(queue + [QueueEntry(xs[k], entry.chain + [xs[k]])], entry.chain, xs[..k + 1], d)
  {
    assert xs[..k + 1] == xs[..k] + [xs[k]];
    assert (entry.chain + [xs[k]])[..d] == entry.chain;
    SeqLeqRefl(entry.chain);
  }

  lemma {:induction false} PushQueue(g: Packages, requested: seq<string>, seen: set<string>, queue: seq<QueueEntry>,
                                     d: nat, chain: seq<string>, xs: seq<string>, next: QueueEntry)
    requires QueueOk(g, requested, seen, queue, d) && EntryOk(g, requested, next) && next.path !in seen
    requires |chain| == d && next.chain == chain + [next.path] && ExtendsUpTo(queue, chain, xs, d)
    requires forall x :: x in xs ==> Leq(x, next.path)
    ensures QueueOk(g, requested, seen + {next.path}, queue + [next], d)
  {
    hide IsChain;
    var more := queue + [next];
    assert next.chain[..d] == chain;
    forall i | 0 <= i < |queue| && |queue[i].chain| == d + 1 ensures SeqLeq(queue[i].chain, next.chain) {
      var e := queue[i];
      assert EntryOk(g, requested, e);
      assert e.chain == e.chain[..d] + [e.path];
      SeqLeqMore(e.chain[..d], chain, e.path, next.path);
    }
    assert ChainsInOrder(more, d);
  }

  lemma {:induction false} Expanded(g: Packages, requested: seq<string>, blocklist: seq<string>,
                                    queue0: seq<QueueEntry>, seen0: set<string>, queue: seq<QueueEntry>,
                                    seen: set<string>, d: nat)
    requires queue0 != [] && seen0 <= seen && Reached(g, requested, seen0, queue0, d)
    requires Settled(g, blocklist, seen0, queue0)
    requires !Blocked(queue0[0].path, blocklist) && forall y :: Edge(g, queue0[0].path, y) ==> y in seen
    requires forall x :: Queued(queue0, x) <==> Queued(queue0[1..], x) || x == queue0[0].path
    requires forall x :: x in seen && x !in seen0 ==> Queued(queue, x)
    requires forall x :: x in seen0 ==> (Queued(queue, x) <==> Queued(queue0[1..], x))
    ensures Reached(g, requested, seen, queue, d) && Settled(g, blocklist, seen, queue)
  {
    forall c | IsChain(g, requested, c) && |c| < d ensures Explored(seen, queue, Last(c)) {
      assert Explored(seen0, queue0, Last(c));
    }
    forall x | Explored(seen, queue, x) ensures !Blocked(x, blocklist) && forall y :: Edge(g, x, y) ==> y in seen {
      if x != queue0[0].path { assert Explored(seen0, queue0, x); }
    }
  }
}
