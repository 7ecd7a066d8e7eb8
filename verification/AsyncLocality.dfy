/** When the async facts of some packages do not depend on the rest of the program
    (compiler/semantic-model.go). */
module AsyncLocality {
  import opened AsyncFacts

  /** The objects in `c` stand for functions in `c`, have their names to themselves, call only each
      other, and are made async by each other only: no call from outside passes them an argument
      that it does not pass in both programs, and no interface among them is implemented outside. */
  ghost predicate Local(p: Program, c: set<Fn>)
  {
    && (forall fn :: fn in p.canon ==> (fn in c <==> p.canon[fn] in c))
    && (forall a, b :: a in c && SameName(p, a, b) ==> b in c)
    && (forall s :: s in p.calls && s in c ==> p.calls[s] <= c)
    && (forall site :: site in p.sites && site.called in c ==> site.args <= c)
    && (forall e :: e in p.named + p.anonymous && e.iface in c ==> e.impl in c)
  }

  /** Two programs agree on the objects in `c`. */
  ghost predicate Agree(p: Program, q: Program, c: set<Fn>)
  {
    && (forall fn :: fn in c ==> (fn in p.canon <==> fn in q.canon) && (fn in p.canon ==> p.canon[fn] == q.canon[fn]))
    && (forall fn :: fn in c ==> (fn in p.calls <==> fn in q.calls) && (fn in p.calls ==> p.calls[fn] == q.calls[fn]))
    && (forall fn :: fn in c ==>
        (fn in p.hasBody <==> fn in q.hasBody) && (fn in p.syncError <==> fn in q.syncError) &&
        p.name(fn) == q.name(fn))
    && (forall site: CallSite :: site.called in c ==> (site in p.sites <==> site in q.sites))
    && (forall e: Edge :: e.iface in c ==> (e in p.named <==> e in q.named) && (e in p.anonymous <==> e in q.anonymous))
  }

  ghost predicate SameOn(p: Program, f: Facts, q: Program, g: Facts, c: set<Fn>)
  {
    forall fn :: fn in c ==> (fn in f.async <==> fn in g.async) && (MethodAsync(p, f, fn) <==> MethodAsync(q, g, fn))
  }

  /** The facts `g` on `c`, and everything else async. */
  ghost function Outward(p: Program, f: Facts, g: Facts, c: set<Fn>): Facts
  {
    Facts((g.async * c) + ((p.calls.Keys + p.canon.Values + f.async) - c),
          (g.methods * c) + (f.methods - c) + ((set e | e in p.named + p.anonymous :: e.iface) - c))
  }

  lemma {:induction false} MethodsOn(p: Program, f: Facts, q: Program, g: Facts, c: set<Fn>, fn: Fn)
    requires Local(p, c) && Local(q, c) && Agree(p, q, c) && fn in c
    ensures MethodAsync(p, Outward(p, f, g, c), fn) <==> MethodAsync(q, g, fn)
  {
    var h := Outward(p, f, g, c);
    if MethodAsync(p, h, fn) {
      var m :| m in h.methods && SameName(p, m, fn);
      assert SameName(p, fn, m) && m in c;
      assert SameName(q, m, fn);
    }
    if MethodAsync(q, g, fn) {
      var m :| m in g.methods && SameName(q, m, fn);
      assert SameName(q, fn, m) && m in c;
      assert m in h.methods && SameName(p, m, fn);
    }
  }

  lemma {:induction false} BodyOn(p: Program, f: Facts, q: Program, g: Facts, c: set<Fn>, fn: Fn)
    requires Local(p, c) && Local(q, c) && Agree(p, q, c) && fn in c
    ensures BodyAsync(p, Outward(p, f, g, c), fn) <==> BodyAsync(q, g, fn)
  {
  }

  lemma {:induction false} OutwardCalls(p: Program, f: Facts, q: Program, g: Facts, c: set<Fn>)
    requires Local(p, c) && Local(q, c) && Agree(p, q, c) && CallClosed(q, g)
    ensures CallClosed(p, Outward(p, f, g, c))
  {
    hide MethodAsync, BodyAsync;
    var h := Outward(p, f, g, c);
    forall s, k | s in p.calls && k in p.calls[s] && FnAsync(p, h, k) ensures s in h.async {
      if s in c {
        assert k in c;
        MethodsOn(p, f, q, g, c, k);
        BodyOn(p, f, q, g, c, k);
        assert FnAsync(q, g, k);
      }
    }
  }

  lemma {:induction false} OutwardSites(p: Program, f: Facts, q: Program, g: Facts, c: set<Fn>)
    requires Local(p, c) && Local(q, c) && Agree(p, q, c) && SitesClosed(q, g)
    ensures SitesClosed(p, Outward(p, f, g, c))
  {
    hide BodyAsync;
    var h := Outward(p, f, g, c);
    forall site | site in p.sites && site.called in p.canon && p.canon[site.called] in p.hasBody &&
      SitePasses(p, h, site)
      ensures p.canon[site.called] in h.async
    {
      if site.called in c {
        if a :| a in site.args && BodyAsync(p, h, a) { BodyOn(p, f, q, g, c, a); }
        assert SitePasses(q, g, site);
      }
    }
  }

  lemma {:induction false} OutwardEdges(p: Program, f: Facts, q: Program, g: Facts, c: set<Fn>)
    requires Local(p, c) && Local(q, c) && Agree(p, q, c) && NamedClosed(q, g) && AnonymousClosed(q, g)
    ensures NamedClosed(p, Outward(p, f, g, c)) && AnonymousClosed(p, Outward(p, f, g, c))
  {
    hide BodyAsync, MethodAsync;
    var h := Outward(p, f, g, c);
    forall e | e in p.named && Counts(p, e) && BodyAsync(p, h, e.impl)
      ensures MethodAsync(p, h, e.iface) && (e.iface in p.canon ==> p.canon[e.iface] in h.async)
    {
      if e.iface in c {
        BodyOn(p, f, q, g, c, e.impl);
        MethodsOn(p, f, q, g, c, e.iface);
      } else {
        OutsideMethod(p, f, g, c, e);
      }
    }
    forall e | e in p.anonymous && Counts(p, e) && FnAsync(p, h, e.impl) ensures MethodAsync(p, h, e.iface) {
      if e.iface in c {
        BodyOn(p, f, q, g, c, e.impl);
        MethodsOn(p, f, q, g, c, e.impl);
        MethodsOn(p, f, q, g, c, e.iface);
        assert FnAsync(q, g, e.impl);
      } else {
        OutsideMethod(p, f, g, c, e);
      }
    }
  }

  lemma {:induction false} OutsideMethod(p: Program, f: Facts, g: Facts, c: set<Fn>, e: Edge)
    requires e in p.named + p.anonymous && e.iface !in c
    ensures MethodAsync(p, Outward(p, f, g, c), e.iface)
  {
    assert e.iface in Outward(p, f, g, c).methods && SameName(p, e.iface, e.iface);
  }

  /** What is below `f` and agrees with `g` on `c` is below the outward facts. */
  lemma {:induction false} BelowOutward(p: Program, f0: Facts, f: Facts, q: Program, g0: Facts, g: Facts, c: set<Fn>)
    requires Local(p, c) && Local(q, c) && Agree(p, q, c) && SameOn(p, f0, q, g0, c)
    requires f0.async <= f.async && f0.methods <= f.methods && g0.async <= g.async && g0.methods <= g.methods
    ensures Below(p, f0, Outward(p, f, g, c))
  {
    var h := Outward(p, f, g, c);
    forall fn | MethodAsync(p, f0, fn) ensures MethodAsync(p, h, fn) {
      if fn in c {
        MethodsOn(p, f, q, g, c, fn);
        Grows(q, g0, g);
      } else {
        var m :| m in f0.methods && SameName(p, m, fn);
        assert m !in c;
        assert m in h.methods;
      }
    }
  }

  /** What the outward facts hold on `c`, `g` holds. */
  lemma {:induction false} WithinOutward(p: Program, f: Facts, q: Program, g: Facts, c: set<Fn>)
    requires Local(p, c) && Local(q, c) && Agree(p, q, c) && Below(p, f, Outward(p, f, g, c))
    ensures forall fn ::
      fn in c ==> (fn in f.async ==> fn in g.async) && (MethodAsync(p, f, fn) ==> MethodAsync(q, g, fn))
  {
    hide MethodAsync;
    forall fn | fn in c
      ensures (fn in f.async ==> fn in g.async) && (MethodAsync(p, f, fn) ==> MethodAsync(q, g, fn))
    {
      MethodsOn(p, f, q, g, c, fn);
    }
  }

  lemma {:induction false} StartWithin(p: Program, f0: Facts, s: Facts, f: Facts, q: Program, g0: Facts, t: Facts,
                                       g: Facts, c: set<Fn>)
    requires Local(p, c) && Local(q, c) && Agree(p, q, c) && SameOn(p, f0, q, g0, c) && NoAliases(q)
    requires Inferred(p, f0, s, f) && Inferred(q, g0, t, g)
    ensures forall fn ::
      fn in c ==> (fn in s.async ==> fn in t.async) && (MethodAsync(p, s, fn) ==> MethodAsync(q, t, fn))
  {
    hide Local, Agree, SameOn, CallClosed, SitesClosed, Below, Least, NamedClosed, AnonymousClosed, NoAliases,
         Transitive, Outward, MethodAsync;
    OutwardCalls(p, s, q, t, c);
    OutwardSites(p, s, q, t, c);
    BelowOutward(p, f0, s, q, g0, t, c);
    WithinOutward(p, s, q, t, c);
  }

  lemma {:induction false} EndWithin(p: Program, f0: Facts, s: Facts, f: Facts, q: Program, g0: Facts, t: Facts,
                                     g: Facts, c: set<Fn>)
    requires Local(p, c) && Local(q, c) && Agree(p, q, c) && SameOn(p, s, q, t, c) && Transitive(q)
    requires Inferred(p, f0, s, f) && Inferred(q, g0, t, g)
    ensures forall fn ::
      fn in c ==> (fn in f.async ==> fn in g.async) && (MethodAsync(p, f, fn) ==> MethodAsync(q, g, fn))
  {
    hide Local, Agree, SameOn, CallClosed, SitesClosed, Below, NamedClosed, AnonymousClosed, NoAliases, Transitive,
         Outward, MethodAsync;
    OutwardCalls(p, f, q, g, c);
    OutwardEdges(p, f, q, g, c);
    BelowOutward(p, s, f, q, t, g, c);
    WithinOutward(p, f, q, g, c);
  }

  lemma {:induction false} AgreeBack(p: Program, q: Program, c: set<Fn>)
    requires Agree(p, q, c)
    ensures Agree(q, p, c)
  {
  }

  lemma {:induction false} SameOnBack(p: Program, f: Facts, q: Program, g: Facts, c: set<Fn>)
    requires SameOn(p, f, q, g, c)
    ensures SameOn(q, g, p, f, c)
  {
  }

  /** In two programs that agree on packages whose functions nothing outside can make async, the
      inference finds the same async functions and methods among them, whatever the rest is. */
  lemma {:induction false} SameInference(p: Program, f0: Facts, s: Facts, f: Facts, q: Program, g0: Facts, t: Facts,
                                         g: Facts, c: set<Fn>)
    requires Local(p, c) && Local(q, c) && Agree(p, q, c) && SameOn(p, f0, q, g0, c)
    requires NoAliases(p) && NoAliases(q) && Transitive(p) && Transitive(q)
    requires Inferred(p, f0, s, f) && Inferred(q, g0, t, g)
    ensures SameOn(p, f, q, g, c)
  {
    hide Local, Agree, Inferred, NoAliases, Transitive, MethodAsync;
    AgreeBack(p, q, c);
    SameOnBack(p, f0, q, g0, c);
    StartWithin(p, f0, s, f, q, g0, t, g, c);
    StartWithin(q, g0, t, g, p, f0, s, f, c);
    assert SameOn(p, s, q, t, c);
    SameOnBack(p, s, q, t, c);
    EndWithin(p, f0, s, f, q, g0, t, g, c);
    EndWithin(q, g0, t, g, p, f0, s, f, c);
  }
}
