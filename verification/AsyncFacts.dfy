/** What it means for async facts to be closed (compiler/semantic-model.go), on values. */
module AsyncFacts {

  /** Identity of a types.Func object. */
  type Fn = nat

  /** A method of an interface and the method that implements it. */
  datatype Edge = Edge(iface: Fn, impl: Fn)

  /** A call that passes arguments of function type: which functions the arguments call or
      name, and whether one of them needs await in any case. */
  datatype CallSite = CallSite(called: Fn, args: set<Fn>, always: bool)

  /** The fixed data of a build. `canon` says which semantic function an object stands for:
      several objects may stand for the same one. `calls` lists what each calls. */
  datatype Program = Program(
    canon: map<Fn, Fn>,
    calls: map<Fn, set<Fn>>,
    hasBody: set<Fn>,
    name: Fn -> string,
    syncError: set<Fn>,
    sites: set<CallSite>,
    named: set<Edge>,
    anonymous: set<Edge>)

  /** The facts inferred so far: async semantic functions, and async interface methods. */
  datatype Facts = Facts(async: set<Fn>, methods: set<Fn>)

  predicate SameName(p: Program, a: Fn, b: Fn)
  {
    a == b || (p.name(a) == p.name(b) && p.name(a) != "")
  }

  /** An object is an async interface method by itself or by its full name. */
  ghost predicate MethodAsync(p: Program, f: Facts, fn: Fn)
  {
    exists m :: m in f.methods && SameName(p, m, fn)
  }

  predicate BodyAsync(p: Program, f: Facts, fn: Fn)
  {
    fn in p.canon && p.canon[fn] in f.async
  }

  ghost predicate FnAsync(p: Program, f: Facts, fn: Fn)
  {
    BodyAsync(p, f, fn) || MethodAsync(p, f, fn)
  }

  ghost predicate Below(p: Program, f: Facts, g: Facts)
  {
    f.async <= g.async && forall fn :: MethodAsync(p, f, fn) ==> MethodAsync(p, g, fn)
  }

  // ----- closure -----

  /** A function that calls an async function is async. */
  ghost predicate CallClosed(p: Program, f: Facts)
  {
    forall s, k :: s in p.calls && k in p.calls[s] && FnAsync(p, f, k) ==> s in f.async
  }

  predicate Counts(p: Program, e: Edge)
  {
    e.iface !in p.syncError && e.impl !in p.syncError
  }

  /** A method of a named interface with an async implementation is async, as a method and as
      a function. */
  ghost predicate NamedClosed(p: Program, f: Facts)
  {
    forall e :: e in p.named && Counts(p, e) && BodyAsync(p, f, e.impl) ==>
      MethodAsync(p, f, e.iface) && (e.iface in p.canon ==> p.canon[e.iface] in f.async)
  }

  ghost predicate AnonymousClosed(p: Program, f: Facts)
  {
    forall e :: e in p.anonymous && Counts(p, e) && FnAsync(p, f, e.impl) ==> MethodAsync(p, f, e.iface)
  }

  ghost predicate Closed(p: Program, f: Facts)
  {
    CallClosed(p, f) && NamedClosed(p, f) && AnonymousClosed(p, f)
  }

  predicate SitePasses(p: Program, f: Facts, site: CallSite)
  {
    site.always || exists g :: g in site.args && BodyAsync(p, f, g)
  }

  /** A function that is passed an async function is async. */
  ghost predicate SitesClosed(p: Program, f: Facts)
  {
    forall c :: c in p.sites && c.called in p.canon && p.canon[c.called] in p.hasBody && SitePasses(p, f, c) ==>
      p.canon[c.called] in f.async
  }

  /** What implements an implementation of an interface implements the interface. */
  ghost predicate Transitive(p: Program)
  {
    forall e, d :: e in p.anonymous && d in p.anonymous && Counts(p, e) && Counts(p, d) &&
                   SameName(p, e.iface, d.impl) ==>
      Edge(d.iface, e.impl) in p.anonymous
  }

  /** Every called object is the one its function is registered with. */
  ghost predicate NoAliases(p: Program)
  {
    forall s, k :: s in p.calls && k in p.calls[s] && k in p.canon ==> p.canon[k] == k
  }

  ghost predicate WellFormed(p: Program)
  {
    && (forall fn :: fn in p.canon ==> p.canon[fn] in p.calls)
    && (forall s :: s in p.calls ==> s in p.canon && p.canon[s] == s)
  }

  // ----- growing -----

  function AddAsync(f: Facts, s: Fn): Facts
  {
    f.(async := f.async + {s})
  }

  function AddMethod(f: Facts, m: Fn): Facts
  {
    f.(methods := f.methods + {m})
  }

  lemma {:induction false} BelowRefl(p: Program, f: Facts)
    ensures Below(p, f, f)
  {
  }

  lemma {:induction false} FnAsyncGrows(p: Program, f: Facts, g: Facts, fn: Fn)
    requires Below(p, f, g) && FnAsync(p, f, fn)
    ensures FnAsync(p, g, fn)
  {
  }

  lemma {:induction false} Grows(p: Program, f: Facts, g: Facts)
    requires f.async <= g.async && f.methods <= g.methods
    ensures Below(p, f, g)
  {
    forall fn | MethodAsync(p, f, fn) ensures MethodAsync(p, g, fn) {
      var m :| m in f.methods && SameName(p, m, fn);
      assert m in g.methods;
    }
  }

  /** Marking a method that a larger set of facts has marked stays below it. */
  lemma {:induction false} AddMethodBelow(p: Program, f: Facts, g: Facts, m: Fn)
    requires Below(p, f, g) && MethodAsync(p, g, m)
    ensures Below(p, AddMethod(f, m), g)
    ensures MethodAsync(p, AddMethod(f, m), m)
  {
    var n :| n in g.methods && SameName(p, n, m);
    forall fn | MethodAsync(p, AddMethod(f, m), fn) ensures MethodAsync(p, g, fn) {
      var k :| k in f.methods + {m} && SameName(p, k, fn);
      if k in f.methods { assert MethodAsync(p, f, fn); } else { assert SameName(p, n, fn); }
    }
    assert m in AddMethod(f, m).methods && SameName(p, m, m);
  }

  // ----- what one run of the worklist does -----

  /** The called functions the worklist started from `f0` takes for async: what was async at the
      start under every object that stands for it, and what has become async since only under
      the object it is registered with. */
  ghost predicate Seen(p: Program, f0: Facts, f: Facts, k: Fn)
  {
    FnAsync(p, f0, k) || (k in p.calls && k in f.async)
  }

  ghost predicate SeenClosed(p: Program, f0: Facts, f: Facts)
  {
    forall s, k :: s in p.calls && k in p.calls[s] && Seen(p, f0, f, k) ==> s in f.async
  }

  /** The least facts above `f0` that are closed under calls the worklist sees. */
  ghost predicate LeastSeen(p: Program, f0: Facts, f: Facts)
  {
    f.methods == f0.methods && f0.async <= f.async && SeenClosed(p, f0, f) &&
    forall g :: SeenClosed(p, f0, g) && f0.async <= g.async ==> f.async <= g.async
  }

  /** A later run of the worklist sees all calls that an earlier one saw. */
  lemma {:induction false} SeenLater(p: Program, f0: Facts, f1: Facts, f: Facts)
    requires Below(p, f0, f1) && SeenClosed(p, f1, f)
    ensures SeenClosed(p, f0, f)
  {
    forall s, k | s in p.calls && k in p.calls[s] && Seen(p, f0, f, k) ensures s in f.async {
      assert Seen(p, f1, f, k);
    }
  }

  /** A call of a function that has just become async, under another object. */
  predicate Aliased(p: Program, f: Facts, k: Fn)
  {
    k in p.canon && p.canon[k] != k && p.canon[k] in f.async
  }

  /** What a run of the worklist reaches is forced by the calls, and it reaches all of it exactly
      when it misses no caller by an alias. */
  lemma {:induction false} SeenIsCalled(p: Program, f0: Facts, f: Facts)
    requires WellFormed(p) && LeastSeen(p, f0, f)
    ensures forall g :: CallClosed(p, g) && Below(p, f0, g) ==> Below(p, f, g)
    ensures forall s, k :: s in p.calls && k in p.calls[s] && FnAsync(p, f0, k) ==> s in f.async
    ensures CallClosed(p, f) <==>
      forall s, k :: s in p.calls && k in p.calls[s] && Aliased(p, f, k) && !FnAsync(p, f0, k) ==> s in f.async
    ensures NoAliases(p) ==> CallClosed(p, f)
  {
    hide FnAsync, WellFormed;
    forall s, k | s in p.calls && k in p.calls[s] && FnAsync(p, f0, k)
      ensures s in f.async
    {
      assert Seen(p, f0, f, k);
    }
    forall g | CallClosed(p, g) && Below(p, f0, g) ensures Below(p, f, g) {
      forall s, k | s in p.calls && k in p.calls[s] && Seen(p, f0, g, k) ensures s in g.async {
        if FnAsync(p, f0, k) { FnAsyncGrows(p, f0, g, k); } else { OwnObject(p, g, k); }
        assert FnAsync(p, g, k);
      }
      assert SeenClosed(p, f0, g);
      assert MethodsKept(p, f0, f);
    }
    forall k ensures FnAsync(p, f, k) <==> Seen(p, f0, f, k) || Aliased(p, f, k) { SeenOrAliased(p, f0, f, k); }
  }

  lemma {:induction false} OwnObject(p: Program, f: Facts, k: Fn)
    requires WellFormed(p) && k in p.calls && k in f.async
    ensures FnAsync(p, f, k)
  {
  }

  ghost predicate MethodsKept(p: Program, f0: Facts, f: Facts)
  {
    forall fn :: MethodAsync(p, f, fn) <==> MethodAsync(p, f0, fn)
  }

  lemma {:induction false} SeenOrAliased(p: Program, f0: Facts, f: Facts, k: Fn)
    requires WellFormed(p) && f.methods == f0.methods && f0.async <= f.async
    ensures FnAsync(p, f, k) <==> Seen(p, f0, f, k) || Aliased(p, f, k)
  {
  }

  /** Function 1 calls 0, and function 2 calls 1 under the object 3. */
  function Alias(): Program
  {
    Program(map[0 := 0, 1 := 1, 2 := 2, 3 := 1], map[0 := {}, 1 := {0}, 2 := {3}], {}, x => "", {}, {}, {}, {})
  }

  lemma {:induction false} AliasCalled(g: Facts)
    requires SeenClosed(Alias(), Facts({0}, {}), g)
    ensures 1 in g.async
  {
    assert 0 in Alias().calls[1] && Seen(Alias(), Facts({0}, {}), g, 0) by {
      assert BodyAsync(Alias(), Facts({0}, {}), 0);
    }
  }

  /** One run makes 1 async and misses 2. */
  lemma {:induction false} AliasMissed()
    ensures var p, f0, f := Alias(), Facts({0}, {}), Facts({0, 1}, {});
      WellFormed(p) && LeastSeen(p, f0, f) && !CallClosed(p, f)
  {
    var p, f0, f := Alias(), Facts({0}, {}), Facts({0, 1}, {});
    forall g | SeenClosed(p, f0, g) && f0.async <= g.async ensures f.async <= g.async { AliasCalled(g); }
    assert !Seen(p, f0, f, 3);
    assert 3 in p.calls[2] && FnAsync(p, f, 3) by { assert BodyAsync(p, f, 3); }
  }

  // ----- one pass over the interface edges -----

  /** What the pass over the named interfaces does with an edge. */
  ghost predicate NamedDone(p: Program, f0: Facts, f: Facts, e: Edge)
  {
    Counts(p, e) && BodyAsync(p, f0, e.impl) ==>
      MethodAsync(p, f, e.iface) && (e.iface in p.canon ==> p.canon[e.iface] in f.async)
  }

  ghost predicate AnonymousDone(p: Program, f0: Facts, f: Facts, e: Edge)
  {
    Counts(p, e) && FnAsync(p, f0, e.impl) ==> MethodAsync(p, f, e.iface)
  }

  /** Every method marked since `f0` has an implementation that was async in `f0`. */
  ghost predicate Rooted(p: Program, f0: Facts, f: Facts)
  {
    f.async == f0.async && f0.methods <= f.methods &&
    forall m :: m in f.methods && m !in f0.methods ==> HasRoot(p, f0, m)
  }

  ghost predicate HasRoot(p: Program, f0: Facts, m: Fn)
  {
    exists a :: Edge(m, a) in p.anonymous && Counts(p, Edge(m, a)) && FnAsync(p, f0, a)
  }

  /** An implementation that is async now, or became async in this pass, leads back to one that
      was async when the pass began. */
  lemma {:induction false} RootOf(p: Program, f0: Facts, f: Facts, e: Edge)
    requires Transitive(p) && Rooted(p, f0, f) && e in p.anonymous && Counts(p, e) && FnAsync(p, f, e.impl)
    ensures HasRoot(p, f0, e.iface)
  {
    if FnAsync(p, f0, e.impl) {
      assert Edge(e.iface, e.impl) in p.anonymous;
    } else {
      var m :| m in f.methods && SameName(p, m, e.impl);
      assert m !in f0.methods;
      var a :| Edge(m, a) in p.anonymous && Counts(p, Edge(m, a)) && FnAsync(p, f0, a);
      assert Edge(e.iface, a) in p.anonymous && Counts(p, Edge(e.iface, a));
    }
  }

  /** When implementation is transitive, one pass in any order closes the anonymous edges. */
  lemma {:induction false} OnePassCloses(p: Program, f0: Facts, f: Facts)
    requires Transitive(p) && Rooted(p, f0, f)
    requires forall e :: e in p.anonymous ==> AnonymousDone(p, f0, f, e)
    ensures AnonymousClosed(p, f)
  {
    forall e | e in p.anonymous && Counts(p, e) && FnAsync(p, f, e.impl) ensures MethodAsync(p, f, e.iface) {
      RootOf(p, f0, f, e);
      var a :| Edge(e.iface, a) in p.anonymous && Counts(p, Edge(e.iface, a)) && FnAsync(p, f0, a);
      assert AnonymousDone(p, f0, f, Edge(e.iface, a));
    }
  }

  // ----- leastness -----

  /** `f` has grown out of `f0`, and no closed facts above `f0` are below it. */
  ghost predicate Least(p: Program, f0: Facts, f: Facts)
  {
    f0.async <= f.async && f0.methods <= f.methods && forall g :: Closed(p, g) && Below(p, f0, g) ==> Below(p, f, g)
  }

  lemma {:induction false} LeastNamed(p: Program, f0: Facts, f: Facts, e: Edge)
    requires Least(p, f0, f) && e in p.named && Counts(p, e) && BodyAsync(p, f, e.impl)
    ensures Least(p, f0, AddMethod(f, e.iface))
    ensures e.iface in p.canon ==> Least(p, f0, AddAsync(AddMethod(f, e.iface), p.canon[e.iface]))
  {
    forall g | Closed(p, g) && Below(p, f0, g) ensures Below(p, AddMethod(f, e.iface), g) {
      assert Below(p, f, g);
      AddMethodBelow(p, f, g, e.iface);
    }
    if e.iface in p.canon {
      var f1 := AddMethod(f, e.iface);
      forall g | Closed(p, g) && Below(p, f0, g) ensures Below(p, AddAsync(f1, p.canon[e.iface]), g) {
        assert Below(p, f, g) && Below(p, f1, g);
      }
    }
  }

  lemma {:induction false} LeastAnonymous(p: Program, f0: Facts, f: Facts, e: Edge)
    requires Least(p, f0, f) && e in p.anonymous && Counts(p, e) && FnAsync(p, f, e.impl)
    ensures Least(p, f0, AddMethod(f, e.iface))
  {
    forall g | Closed(p, g) && Below(p, f0, g) ensures Below(p, AddMethod(f, e.iface), g) {
      assert Below(p, f, g);
      FnAsyncGrows(p, f, g, e.impl);
      AddMethodBelow(p, f, g, e.iface);
    }
  }

  lemma {:induction false} LeastCalls(p: Program, f0: Facts, f: Facts, h: Facts)
    requires Least(p, f0, f) && h.methods == f.methods && f.async <= h.async
    requires forall g :: CallClosed(p, g) && Below(p, f, g) ==> Below(p, h, g)
    ensures Least(p, f0, h)
  {
  }

  /** A round of the outer loop that adds no async function leaves everything closed. */
  lemma {:induction false} StableRound(p: Program, f1: Facts, f2: Facts, f3: Facts, f4: Facts)
    requires f1.async == f2.async == f3.async == f4.async && f2.methods <= f3.methods == f4.methods
    requires forall e :: e in p.named ==> NamedDone(p, f1, f2, e)
    requires Transitive(p) ==> AnonymousClosed(p, f3)
    requires forall s, k :: s in p.calls && k in p.calls[s] && FnAsync(p, f3, k) ==> s in f4.async
    ensures CallClosed(p, f4) && NamedClosed(p, f4) && (Transitive(p) ==> AnonymousClosed(p, f4))
  {
    assert f3 == f4;
    forall e | e in p.named && Counts(p, e) && BodyAsync(p, f4, e.impl)
      ensures MethodAsync(p, f4, e.iface) && (e.iface in p.canon ==> p.canon[e.iface] in f4.async)
    {
      assert NamedDone(p, f1, f2, e);
      Grows(p, f2, f4);
    }
  }

  // ----- what the calls and the interface edges can make async -----

  /** What can be async: a function, or a method of an interface. */
  datatype Mark = Function(fn: Fn) | Method(fn: Fn)

  ghost predicate Marked(p: Program, f: Facts, m: Mark)
  {
    match m
    case Function(s) => s in f.async
    case Method(fn) => MethodAsync(p, f, fn)
  }

  /** Object `o` is async by mark `a` alone. */
  predicate By(p: Program, a: Mark, o: Fn)
  {
    match a
    case Function(k) => o in p.canon && p.canon[o] == k
    case Method(m) => SameName(p, m, o)
  }

  /** A call or an edge through which `a` makes `b` async. */
  ghost predicate Leads(p: Program, a: Mark, b: Mark)
  {
    match b
    case Function(s) =>
      (s in p.calls && exists o :: o in p.calls[s] && By(p, a, o)) ||
      (a.Function? &&
       exists e :: e in p.named && Counts(p, e) && By(p, a, e.impl) && e.iface in p.canon && p.canon[e.iface] == s)
    case Method(m) =>
      (a.Function? && exists e :: e in p.named && Counts(p, e) && By(p, a, e.impl) && SameName(p, e.iface, m)) ||
      (exists e :: e in p.anonymous && Counts(p, e) && By(p, a, e.impl) && SameName(p, e.iface, m))
  }

  /** A chain of calls and edges that starts at something async. */
  ghost predicate Trail(p: Program, f: Facts, trail: seq<Mark>)
  {
    trail != [] && Marked(p, f, trail[0]) && forall k :: 0 <= k < |trail| - 1 ==> Leads(p, trail[k], trail[k + 1])
  }

  ghost predicate CanBecome(p: Program, f: Facts, b: Mark)
  {
    exists trail :: Trail(p, f, trail) && trail[|trail| - 1] == b
  }

  lemma {:induction false} TrailStarts(p: Program, f: Facts, b: Mark)
    requires Marked(p, f, b)
    ensures CanBecome(p, f, b)
  {
    assert Trail(p, f, [b]) && [b][|[b]| - 1] == b;
  }

  lemma {:induction false} TrailGoesOn(p: Program, f: Facts, a: Mark, b: Mark)
    requires CanBecome(p, f, a) && Leads(p, a, b)
    ensures CanBecome(p, f, b)
  {
    hide Leads, Marked;
    var trail :| Trail(p, f, trail) && trail[|trail| - 1] == a;
    var more := trail + [b];
    assert Trail(p, f, more) && more[|more| - 1] == b;
  }

  /** Closed facts hold everything a trail leads to. */
  lemma {:induction false} TrailStays(p: Program, f: Facts, g: Facts, trail: seq<Mark>, k: nat)
    requires Closed(p, g) && Below(p, f, g) && Trail(p, f, trail) && k < |trail|
    ensures Marked(p, g, trail[k])
  {
    hide Closed;
    if k > 0 {
      TrailStays(p, f, g, trail, k - 1);
      LeadsOn(p, g, trail[k - 1], trail[k]);
    }
  }

  lemma {:induction false} LeadsOn(p: Program, g: Facts, a: Mark, b: Mark)
    requires Closed(p, g) && Marked(p, g, a) && Leads(p, a, b)
    ensures Marked(p, g, b)
  {
    match b
    case Function(s) =>
      if s in p.calls && exists o :: o in p.calls[s] && By(p, a, o) {
        var o :| o in p.calls[s] && By(p, a, o);
        ByAsync(p, g, a, o);
      }
    case Method(m) =>
      if a.Function? && exists e :: e in p.named && Counts(p, e) && By(p, a, e.impl) && SameName(p, e.iface, m) {
        var e :| e in p.named && Counts(p, e) && By(p, a, e.impl) && SameName(p, e.iface, m);
        SameMethod(p, g, e.iface, m);
      } else {
        var e :| e in p.anonymous && Counts(p, e) && By(p, a, e.impl) && SameName(p, e.iface, m);
        ByAsync(p, g, a, e.impl);
        SameMethod(p, g, e.iface, m);
      }
  }

  lemma {:induction false} ByAsync(p: Program, g: Facts, a: Mark, o: Fn)
    requires Marked(p, g, a) && By(p, a, o)
    ensures FnAsync(p, g, o)
  {
    if a.Method? { SameMethod(p, g, a.fn, o); }
  }

  lemma {:induction false} SameMethod(p: Program, g: Facts, a: Fn, b: Fn)
    requires MethodAsync(p, g, a) && SameName(p, a, b)
    ensures MethodAsync(p, g, b)
  {
    var m :| m in g.methods && SameName(p, m, a);
    assert SameName(p, m, b);
  }

  /** All that trails lead to, as facts. */
  ghost function Reached(p: Program, f: Facts): Facts
  {
    Facts((set s | s in f.async + p.calls.Keys + p.canon.Values && CanBecome(p, f, Function(s))),
          f.methods + (set e | e in p.named + p.anonymous && CanBecome(p, f, Method(e.iface)) :: e.iface))
  }

  lemma {:induction false} ReachedMarks(p: Program, f: Facts, m: Mark)
    requires Marked(p, Reached(p, f), m)
    ensures CanBecome(p, f, m)
  {
    if m.Method? {
      var n :| n in Reached(p, f).methods && SameName(p, n, m.fn);
      if n in f.methods {
        TrailStarts(p, f, m);
      } else {
        SameTrail(p, f, n, m.fn);
      }
    }
  }

  /** What holds of a method holds of every object with its name. */
  lemma {:induction false} SameTrail(p: Program, f: Facts, a: Fn, b: Fn)
    requires CanBecome(p, f, Method(a)) && SameName(p, a, b)
    ensures CanBecome(p, f, Method(b))
  {
    var trail :| Trail(p, f, trail) && trail[|trail| - 1] == Method(a);
    var n := |trail| - 1;
    if n == 0 {
      SameMethod(p, f, a, b);
      TrailStarts(p, f, Method(b));
    } else {
      var front := trail[..n];
      assert Leads(p, trail[n - 1], trail[n]);
      assert Trail(p, f, front) && front[|front| - 1] == trail[n - 1];
      SameLead(p, trail[n - 1], a, b);
      TrailGoesOn(p, f, trail[n - 1], Method(b));
    }
  }

  lemma {:induction false} SameLead(p: Program, x: Mark, a: Fn, b: Fn)
    requires Leads(p, x, Method(a)) && SameName(p, a, b)
    ensures Leads(p, x, Method(b))
  {
    forall e: Edge | SameName(p, e.iface, a) ensures SameName(p, e.iface, b) { }
  }

  lemma {:induction false} ReachedAsync(p: Program, f: Facts, o: Fn) returns (a: Mark)
    requires FnAsync(p, Reached(p, f), o)
    ensures CanBecome(p, f, a) && By(p, a, o) && (BodyAsync(p, Reached(p, f), o) ==> a.Function?)
  {
    a := if BodyAsync(p, Reached(p, f), o) then Function(p.canon[o]) else Method(o);
    ReachedMarks(p, f, a);
  }

  lemma {:induction false} ReachedClosed(p: Program, f: Facts)
    ensures Closed(p, Reached(p, f)) && Below(p, f, Reached(p, f))
  {
    hide CanBecome, FnAsync, Leads;
    var g := Reached(p, f);
    forall s | s in f.async ensures CanBecome(p, f, Function(s)) { TrailStarts(p, f, Function(s)); }
    Grows(p, f, g);
    forall s, k | s in p.calls && k in p.calls[s] && FnAsync(p, g, k) ensures s in g.async {
      var a := ReachedAsync(p, f, k);
      CallLeads(p, a, k, s);
      TrailGoesOn(p, f, a, Function(s));
    }
    forall e | e in p.named && Counts(p, e) && BodyAsync(p, g, e.impl)
      ensures MethodAsync(p, g, e.iface) && (e.iface in p.canon ==> p.canon[e.iface] in g.async)
    {
      BodyIsFn(p, g, e.impl);
      var a := ReachedAsync(p, f, e.impl);
      NamedLeads(p, a, e);
      TrailGoesOn(p, f, a, Method(e.iface));
      assert e.iface in g.methods && SameName(p, e.iface, e.iface);
      if e.iface in p.canon { TrailGoesOn(p, f, a, Function(p.canon[e.iface])); }
    }
    forall e | e in p.anonymous && Counts(p, e) && FnAsync(p, g, e.impl) ensures MethodAsync(p, g, e.iface) {
      var a := ReachedAsync(p, f, e.impl);
      AnonymousLeads(p, a, e);
      TrailGoesOn(p, f, a, Method(e.iface));
      assert e.iface in g.methods && SameName(p, e.iface, e.iface);
    }
  }

  lemma {:induction false} BodyIsFn(p: Program, f: Facts, o: Fn)
    requires BodyAsync(p, f, o)
    ensures FnAsync(p, f, o)
  {
  }

  lemma {:induction false} CallLeads(p: Program, a: Mark, o: Fn, s: Fn)
    requires s in p.calls && o in p.calls[s] && By(p, a, o)
    ensures Leads(p, a, Function(s))
  {
  }

  lemma {:induction false} NamedLeads(p: Program, a: Mark, e: Edge)
    requires a.Function? && e in p.named && Counts(p, e) && By(p, a, e.impl)
    ensures Leads(p, a, Method(e.iface)) && (e.iface in p.canon ==> Leads(p, a, Function(p.canon[e.iface])))
  {
    assert SameName(p, e.iface, e.iface);
  }

  lemma {:induction false} AnonymousLeads(p: Program, a: Mark, e: Edge)
    requires e in p.anonymous && Counts(p, e) && By(p, a, e.impl)
    ensures Leads(p, a, Method(e.iface))
  {
    assert SameName(p, e.iface, e.iface);
  }

  /** The least closed facts above `f1` are what trails from `f1` lead to. */
  lemma {:induction false} LeastIsReached(p: Program, f1: Facts, f: Facts, s: Fn)
    requires Least(p, f1, f)
    ensures s in f.async ==> CanBecome(p, f1, Function(s))
    ensures Closed(p, f) && CanBecome(p, f1, Function(s)) ==> s in f.async
  {
    hide Closed, CanBecome;
    ReachedClosed(p, f1);
    if s in f.async { ReachedMarks(p, f1, Function(s)); }
    if Closed(p, f) && CanBecome(p, f1, Function(s)) { TrailEnds(p, f1, f, Function(s)); }
  }

  lemma {:induction false} TrailEnds(p: Program, f: Facts, g: Facts, b: Mark)
    requires Closed(p, g) && f.async <= g.async && f.methods <= g.methods && CanBecome(p, f, b)
    ensures Marked(p, g, b)
  {
    hide Closed, Below;
    var trail :| Trail(p, f, trail) && trail[|trail| - 1] == b;
    Grows(p, f, g);
    TrailStays(p, f, g, trail, |trail| - 1);
  }

  /** A call of a function with a body that has a function as argument. */
  predicate Passed(p: Program, c: CallSite, g: Fn)
  {
    c in p.sites && c.called in p.canon && p.canon[c.called] in p.hasBody && g in c.args && g in p.canon
  }

  /** Where a trail makes an argument of a call async, one makes the called function async too,
      unless it is async already. */
  ghost predicate SitesKept(p: Program, f: Facts)
  {
    forall c, g :: Passed(p, c, g) && CanBecome(p, f, Function(p.canon[g])) ==>
      CanBecome(p, f, Function(p.canon[c.called]))
  }

  /** No argument of a call whose function is still synchronous can have become async. */
  ghost predicate NothingGained(p: Program, f1: Facts, f: Facts)
  {
    forall c, g :: Passed(p, c, g) && p.canon[c.called] !in f.async ==> !CanBecome(p, f1, Function(p.canon[g]))
  }

  /** Call sites that are closed when the outer loop starts are closed at its end exactly when no
      trail reaches an argument without one that reaches the called function. */
  lemma {:induction false} SitesClosedExactly(p: Program, f1: Facts, f: Facts)
    requires SitesClosed(p, f1) && Least(p, f1, f)
    ensures Closed(p, f) ==> (SitesClosed(p, f) <==> SitesKept(p, f1))
    ensures NothingGained(p, f1, f) ==> SitesClosed(p, f)
  {
    hide Closed, CanBecome, CallClosed, NamedClosed, Least;
    forall s ensures s in f.async ==> CanBecome(p, f1, Function(s)) { LeastIsReached(p, f1, f, s); }
    LeastAbove(p, f1, f);
    if Closed(p, f) {
      forall s ensures CanBecome(p, f1, Function(s)) <==> s in f.async { LeastIsReached(p, f1, f, s); }
    }
  }

  lemma {:induction false} LeastAbove(p: Program, f1: Facts, f: Facts)
    requires Least(p, f1, f)
    ensures f1.async <= f.async
  {
  }

  /** What the inference leaves of the facts `f0`: those at the start of the outer loop are closed
      under call sites and under the calls that the worklist sees from `f0`, and only what calls and
      sites force; those at its end are the least above them that are closed under calls and edges. */
  ghost predicate Inferred(p: Program, f0: Facts, start: Facts, f: Facts)
  {
    && start.methods == f0.methods && f0.async <= start.async && SitesClosed(p, start) && SeenClosed(p, f0, start)
    && (NoAliases(p) ==> CallClosed(p, start))
    && (forall g :: CallClosed(p, g) && SitesClosed(p, g) && Below(p, f0, g) ==> Below(p, start, g))
    && Least(p, start, f) && CallClosed(p, f) && NamedClosed(p, f) && (Transitive(p) ==> AnonymousClosed(p, f))
  }

  lemma {:induction false} MethodMarked(p: Program, f: Facts, m: Fn)
    requires m in f.methods
    ensures MethodAsync(p, f, m) && FnAsync(p, f, m)
  {
    assert SameName(p, m, m);
  }

  lemma {:induction false} MarkedByName(p: Program, f: Facts, fn: Fn)
    requires MethodAsync(p, f, fn)
    ensures exists m :: m in f.methods && p.name(m) == p.name(fn)
  {
    var m :| m in f.methods && SameName(p, m, fn);
    assert p.name(m) == p.name(fn);
  }

  lemma {:induction false} LeastStarts(p: Program, f0: Facts)
    ensures Least(p, f0, f0)
  {
  }

  lemma {:induction false} NotAsyncBefore(p: Program, f0: Facts, f: Facts, fn: Fn)
    requires Below(p, f0, f) && !FnAsync(p, f, fn)
    ensures !FnAsync(p, f0, fn)
  {
  }

  /** Function 0 implements method 1 of an interface; function 2 is called with 1 as argument. */
  function Reopening(): Program
  {
    Program(map[0 := 0, 1 := 1, 2 := 2], map[0 := {}, 1 := {}, 2 := {}], {2}, x => "", {},
            {CallSite(2, {1}, false)}, {Edge(1, 0)}, {})
  }

  /** Call sites are not looked at again after the interfaces: a method that becomes async as an
      interface method can be an argument of a call whose function stays synchronous. */
  lemma {:induction false} SitesReopen()
    ensures var p, f0, f := Reopening(), Facts({0}, {}), Facts({0, 1}, {1});
      WellFormed(p) && CallClosed(p, f0) && SitesClosed(p, f0) && Closed(p, f) && Least(p, f0, f) && !SitesClosed(p, f)
  {
    var p, f0, f := Reopening(), Facts({0}, {}), Facts({0, 1}, {1});
    var site, e := CallSite(2, {1}, false), Edge(1, 0);
    assert MethodAsync(p, f, 1) by { assert 1 in f.methods && SameName(p, 1, 1); }
    assert !SitesClosed(p, f) by { assert site in p.sites && BodyAsync(p, f, 1) && 1 in site.args; }
    forall g | Closed(p, g) && Below(p, f0, g) ensures Below(p, f, g) {
      assert e in p.named && Counts(p, e) && BodyAsync(p, g, e.impl);
      assert MethodAsync(p, g, 1);
      AddMethodBelow(p, f0, g, 1);
    }
  }

  /** Function 0 of package p calls nothing; function 1 of package q calls it, and may pass it a function literal. */
  function Passing(sites: set<CallSite>): Program
  {
    Program(map[0 := 0, 1 := 1], map[0 := {}, 1 := {0}], {0},
            x => if x == 0 then "p.f" else if x == 1 then "q.g" else "", {}, sites, {}, {})
  }

  /** Whether a function is async can depend on its callers alone: on a call that passes it an
      argument that needs await. */
  lemma {:induction false} CalleeDependsOnCaller()
    ensures Closed(Passing({}), Facts({}, {})) && SitesClosed(Passing({}), Facts({}, {}))
    ensures forall f :: SitesClosed(Passing({CallSite(0, {}, true)}), f) ==> 0 in f.async
  {
    var c := CallSite(0, {}, true);
    forall f | SitesClosed(Passing({c}), f) ensures 0 in f.async {
      assert c in Passing({c}).sites && SitePasses(Passing({c}), f, c);
    }
  }

  /** The inference leaves it synchronous without the argument and makes it async with it. */
  lemma {:induction false} PassingInferred(s0: Facts, f0: Facts, s1: Facts, f1: Facts)
    requires Inferred(Passing({}), Facts({}, {}), s0, f0)
    requires Inferred(Passing({CallSite(0, {}, true)}), Facts({}, {}), s1, f1)
    ensures forall fn :: !FnAsync(Passing({}), f0, fn)
    ensures FnAsync(Passing({CallSite(0, {}, true)}), f1, 0)
  {
    var p, q, none := Passing({}), Passing({CallSite(0, {}, true)}), Facts({}, {});
    CalleeDependsOnCaller();
    BelowRefl(p, none);
    assert Closed(p, none) && CallClosed(p, none);
    assert Below(p, s0, none) && Below(p, f0, none);
    assert SitesClosed(q, s1) && 0 in s1.async && 0 in f1.async;
  }
}
