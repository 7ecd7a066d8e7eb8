/** Async inference as the compiler runs it (compiler/semantic-model.go): worklists and
    repeat-until-stable loops over mutable function records. */
module AsyncInference {
  import opened AsyncFacts
  import opened FiniteSets

  class SemanticFunction {
    const id: Fn
    const hasBody: bool
    var async: bool
    var asyncReasons: seq<string>

    constructor (id: Fn, hasBody: bool)
      ensures this.id == id && this.hasBody == hasBody && !async && asyncReasons == []
    {
      this.id, this.hasBody := id, hasBody;
      async, asyncReasons := false, [];
    }
  }

  /** Reports a change when the function was not async, and also when only the reason is new. */
  method MarkFunctionAsync(fn: SemanticFunction?, reason: string) returns (changed: bool)
    modifies fn
    ensures fn == null ==> !changed
    ensures fn != null ==>
      fn.async && (changed <==> !old(fn.async) || reason !in old(fn.asyncReasons)) &&
      fn.asyncReasons == old(fn.asyncReasons) + (if reason in old(fn.asyncReasons) then [] else [reason])
  {
    if fn == null { return false; }
    changed := !fn.async;
    fn.async := true;
    if reason in fn.asyncReasons { return changed; }
    fn.asyncReasons := fn.asyncReasons + [reason];
    changed := true;
  }

  const ARGUMENT: string := "async-function-argument"

  class SemanticModel {
    const p: Program
    const objects: map<Fn, SemanticFunction>
    var functions: map<Fn, SemanticFunction>
    var functionCallers: map<Fn, seq<SemanticFunction>>
    var asyncInterfaceMethodObjs: set<Fn>
    var asyncInterfaceMethods: set<string>

    constructor (p: Program, objects: map<Fn, SemanticFunction>)
      requires WellFormed(p) && objects.Keys == p.calls.Keys
      requires forall i :: i in objects ==> objects[i].id == i && (objects[i].hasBody <==> i in p.hasBody)
      ensures this.p == p && this.objects == objects && Valid()
      ensures asyncInterfaceMethodObjs == {} && functionCallers == map[]
    {
      this.p, this.objects := p, objects;
      functions, functionCallers := objects, map[];
      asyncInterfaceMethodObjs, asyncInterfaceMethods := {}, {};
    }

    ghost predicate Valid()
      reads this
    {
      && WellFormed(p) && objects.Keys == p.calls.Keys
      && (forall i :: i in objects ==> objects[i].id == i && (objects[i].hasBody <==> i in p.hasBody))
      && (forall fn :: fn in functions ==> fn in p.canon && functions[fn] == objects[p.canon[fn]])
      && (forall i :: i in objects ==> i in functions)
      && (forall k :: k in asyncInterfaceMethods <==>
          k != "" && exists m :: m in asyncInterfaceMethodObjs && p.name(m) == k)
      && (forall k, s :: k in functionCallers && s in functionCallers[k] ==> s in objects.Values && k in p.calls[s.id])
    }

    /** The call edges have been collected. */
    ghost predicate Collected()
      reads this`functionCallers
    {
      forall s, k :: s in p.calls && s in objects && k in p.calls[s] ==>
        k in functionCallers && objects[s] in functionCallers[k]
    }

    ghost function Current(): (f: Facts)
      reads this`asyncInterfaceMethodObjs, objects.Values
    {
      Facts((set i | i in objects && objects[i].async), asyncInterfaceMethodObjs)
    }

    /** Functions that are async because of an argument. */
    ghost function Argued(): (r: set<Fn>)
      reads objects.Values
    {
      set i | i in objects && objects[i].async && ARGUMENT in objects[i].asyncReasons
    }

    /** semanticFunctionFor: looks an object up and remembers what was found. */
    method SemanticFunctionFor(fn: Fn) returns (r: SemanticFunction?)
      requires Valid()
      modifies this`functions
      ensures Valid() && Remembers(old(functions)) && Current() == old(Current()) && Argued() == old(Argued())
      ensures r == (if fn in p.canon then objects[p.canon[fn]] else null) && (r == null <==> fn !in p.canon)
    {
      hide Current, Argued;
      if fn in functions { return functions[fn]; }
      if fn in p.canon {
        r := objects[p.canon[fn]];
        functions := functions[fn := r];
        return r;
      }
      r := null;
    }

    ghost predicate Remembers(before: map<Fn, SemanticFunction>)
      reads this
    {
      forall fn :: fn in before ==> fn in functions && functions[fn] == before[fn]
    }

    method InterfaceMethodAsync(fn: Fn) returns (b: bool)
      requires Valid()
      ensures b <==> MethodAsync(p, Current(), fn)
    {
      if fn in asyncInterfaceMethodObjs {
        assert SameName(p, fn, fn);
        return true;
      }
      b := p.name(fn) != "" && p.name(fn) in asyncInterfaceMethods;
    }

    method FunctionAsync(fn: Fn) returns (b: bool)
      requires Valid()
      modifies this`functions
      ensures Valid() && Remembers(old(functions)) && Current() == old(Current()) && Argued() == old(Argued())
      ensures b <==> FnAsync(p, Current(), fn)
    {
      var semFn := SemanticFunctionFor(fn);
      if semFn != null && semFn.async { return true; }
      b := InterfaceMethodAsync(fn);
    }

    method MarkInterfaceMethodAsync(fn: Fn)
      requires Valid()
      modifies this`asyncInterfaceMethodObjs, this`asyncInterfaceMethods
      ensures Valid() && Current() == AddMethod(old(Current()), fn)
    {
      asyncInterfaceMethodObjs := asyncInterfaceMethodObjs + {fn};
      if p.name(fn) != "" { asyncInterfaceMethods := asyncInterfaceMethods + {p.name(fn)}; }
    }

    /** Marks a function of this model. */
    method Mark(s: SemanticFunction, reason: string) returns (changed: bool)
      requires Valid() && s in objects.Values
      modifies s
      ensures Valid() && Current() == AddAsync(old(Current()), s.id)
      ensures changed <==> !old(s.async) || reason !in old(s.asyncReasons)
      ensures old(s.async) <==> s.id in old(Current()).async
      ensures Argued() == old(Argued()) + (if reason == ARGUMENT || ARGUMENT in old(s.asyncReasons) then {s.id} else {})
      ensures s.asyncReasons == old(s.asyncReasons) + (if reason in old(s.asyncReasons) then [] else [reason])
    {
      changed := MarkFunctionAsync(s, reason);
    }

    // ----- the caller map -----

    /** semanticFunctionCallers; the maps may be traversed in any order. */
    method CollectCallers()
      requires Valid()
      modifies this`functionCallers
      ensures Valid() && Collected() && Current() == old(Current())
    {
      hide Valid, ListedAt, Current;
      ResetCallers();
      var rest := functions.Keys;
      while rest != {}
        invariant rest <= functions.Keys && Valid() && functions == old(functions) && Current() == old(Current())
        invariant forall i :: i in functions && i !in rest ==> ListedAt(i)
        decreases |rest|
      {
        var i :| i in rest;
        AddCallsOf(i);
        rest := rest - {i};
      }
      AllListed();
    }

    method ResetCallers()
      requires Valid()
      modifies this`functionCallers
      ensures Valid() && functionCallers == map[] && Current() == old(Current())
    {
      functionCallers := map[];
    }

    lemma {:induction false} AllListed()
      requires Valid() && forall i :: i in functions ==> ListedAt(i)
      ensures Collected()
    {
      forall s, k | s in p.calls && k in p.calls[s] ensures k in functionCallers && objects[s] in functionCallers[k] {
        assert s in functions && ListedAt(s);
      }
    }

    /** The function of an object stands in the lists of everything it calls. */
    ghost predicate ListedAt(i: Fn)
      reads this`functionCallers
    {
      i in p.canon && p.canon[i] in objects && p.canon[i] in p.calls &&
      forall k :: k in p.calls[p.canon[i]] ==> k in functionCallers && objects[p.canon[i]] in functionCallers[k]
    }

    lemma {:induction false} Resolved(i: Fn)
      requires Valid() && i in functions
      ensures i in p.canon && p.canon[i] in objects && functions[i] == objects[p.canon[i]]
      ensures functions[i].id == p.canon[i] && p.canon[i] in p.calls && functions[i] in objects.Values
    {
    }

    method AddCallsOf(i: Fn)
      requires Valid() && i in functions
      modifies this`functionCallers
      ensures Valid() && functions == old(functions) && Current() == old(Current()) && ListedAt(i)
      ensures forall j :: old(ListedAt(j)) ==> ListedAt(j)
    {
      hide WellFormed;
      var s := functions[i];
      Resolved(i);
      var rest := p.calls[s.id];
      while rest != {}
        invariant rest <= p.calls[s.id] && Valid() && s in objects.Values
        invariant forall k ::
          k in old(functionCallers) ==> k in functionCallers && old(functionCallers)[k] <= functionCallers[k]
        invariant forall k :: k in p.calls[s.id] && k !in rest ==> k in functionCallers && s in functionCallers[k]
        decreases |rest|
      {
        var k :| k in rest;
        AddCall(s, k);
        rest := rest - {k};
      }
    }

    method AddCall(s: SemanticFunction, k: Fn)
      requires Valid() && s in objects.Values && s.id in p.calls && k in p.calls[s.id]
      modifies this`functionCallers
      ensures Valid() && k in functionCallers && s in functionCallers[k]
      ensures forall j :: j in old(functionCallers) ==>
        j in functionCallers && old(functionCallers)[j] <= functionCallers[j]
    {
      hide WellFormed;
      var list := (if k in functionCallers then functionCallers[k] else []) + [s];
      assert list[|list| - 1] == s;
      functionCallers := functionCallers[k := list];
    }

    // ----- the worklist -----

    /** Every caller of `k` is async. */
    ghost predicate CallersDone(k: Fn, f: Facts)
      reads this
    {
      forall s :: s in p.calls && k in p.calls[s] ==> s in f.async
    }

    /** The state of the worklist that started from the facts `f0`. */
    ghost predicate Worklist(f0: Facts, f: Facts, queued: set<Fn>, queue: seq<Fn>)
      reads this
    {
      && f.methods == f0.methods && f0.async <= f.async
      && (forall g :: SeenClosed(p, f0, g) && f0.async <= g.async ==> f.async <= g.async)
      && (forall q :: q in queue ==> q in queued)
      && (forall q :: q in queued ==> Seen(p, f0, f, q))
      && (forall q :: q in queued && q !in queue ==> CallersDone(q, f))
      && (forall k :: k in functionCallers && FnAsync(p, f0, k) ==> k in queued)
      && (forall s :: s in f.async && s !in f0.async ==> s in queued)
    }

    /** How many functions can still be queued: each is queued once. */
    ghost function Unqueued(queued: set<Fn>): nat
      reads this
    {
      |objects.Keys - queued|
    }

    lemma {:induction false} QueuedOnce(queued: set<Fn>, s: Fn)
      requires s in objects && s !in queued
      ensures Unqueued(queued + {s}) < Unqueued(queued)
    {
      OneFewer(objects.Keys, queued, s);
    }

    /** The functions that call an async function, from the ones that are async now: the least
        facts closed under the calls the worklist sees, for every order of the caller map. */
    method PropagateFunctionAsync()
      requires Valid() && Collected()
      modifies this`functions, objects.Values
      ensures Valid() && Collected() && Remembers(old(functions)) && old(Argued()) <= Argued()
      ensures LeastSeen(p, old(Current()), Current())
    {
      hide Worklist, FnAsync, LeastSeen, CallersDone, WellFormed, Current;
      ghost var f0 := Current();
      var queue := AsyncCallees();
      var queued := set q | q in queue;
      WorklistStarts(queue, queued);
      ghost var last := Drain(f0, queued, queue);
      WorklistEnds(f0, last);
    }

    lemma {:induction false} Spread(f0: Facts, f: Facts)
      requires Valid() && LeastSeen(p, f0, f)
      ensures f.methods == f0.methods && f0.async <= f.async
      ensures forall g :: CallClosed(p, g) && Below(p, f0, g) ==> Below(p, f, g)
      ensures forall s, k :: s in p.calls && k in p.calls[s] && FnAsync(p, f0, k) ==> s in f.async
      ensures NoAliases(p) ==> CallClosed(p, f)
    {
      SeenIsCalled(p, f0, f);
    }

    method Drain(ghost f0: Facts, queued0: set<Fn>, queue0: seq<Fn>) returns (ghost last: set<Fn>)
      requires Valid() && Collected() && Worklist(f0, Current(), queued0, queue0)
      modifies objects.Values
      ensures Valid() && Collected() && Worklist(f0, Current(), last, []) && old(Argued()) <= Argued()
    {
      hide Worklist, Current, Valid, Collected, Argued, Unqueued;
      var queued, queue := queued0, queue0;
      while queue != []
        invariant Valid() && Collected() && old(Argued()) <= Argued()
        invariant Worklist(f0, Current(), queued, queue)
        decreases Unqueued(queued), |queue|
      {
        var called, rest := queue[0], queue[1..];
        assert queue == [called] + rest;
        queued, queue := MarkCallers(f0, called, queued, rest);
      }
      last := queued;
    }

    /** The called functions that are async. */
    method AsyncCallees() returns (queue: seq<Fn>)
      requires Valid()
      modifies this`functions
      ensures Valid() && Remembers(old(functions)) && Current() == old(Current()) && Argued() == old(Argued())
      ensures forall k :: k in queue <==> k in functionCallers && FnAsync(p, Current(), k)
    {
      hide Valid, Current, FnAsync, Argued;
      queue := [];
      var rest := functionCallers.Keys;
      while rest != {}
        invariant rest <= functionCallers.Keys && Valid() && Remembers(old(functions)) && Current() == old(Current()) &&
          Argued() == old(Argued())
        invariant forall k :: k in queue <==> k in functionCallers && k !in rest && FnAsync(p, Current(), k)
        decreases |rest|
      {
        var k :| k in rest;
        var async := FunctionAsync(k);
        if async { queue := queue + [k]; }
        rest := rest - {k};
      }
    }

    /** Marks the callers of `called`, and queues those that changed. */
    method MarkCallers(ghost f0: Facts, called: Fn, queued0: set<Fn>, queue0: seq<Fn>)
      returns (queued: set<Fn>, queue: seq<Fn>)
      requires Valid() && Collected() && Worklist(f0, Current(), queued0, [called] + queue0)
      modifies objects.Values
      ensures Valid() && Collected() && Worklist(f0, Current(), queued, queue) && old(Argued()) <= Argued()
      ensures Unqueued(queued) < Unqueued(queued0) || (Unqueued(queued) == Unqueued(queued0) && queue == queue0)
    {
      hide Valid, Current, Worklist, Collected, Argued, Unqueued;
      queued, queue := queued0, queue0;
      FirstQueued(f0, called, queued0, queue0);
      if called !in functionCallers {
        NothingCalls(f0, called, queued, queue);
        return;
      }
      var callers := functionCallers[called];
      for j := 0 to |callers|
        invariant Valid() && Collected() && old(Argued()) <= Argued()
        invariant Worklist(f0, Current(), queued, [called] + queue)
        invariant called in queued
        invariant Unqueued(queued) < Unqueued(queued0) || (Unqueued(queued) == Unqueued(queued0) && queue == queue0)
        invariant forall i :: 0 <= i < j ==> callers[i].id in Current().async
      {
        var s := callers[j];
        CallerOf(called, s);
        ghost var f := Current();
        var changed := Mark(s, "call:" + p.name(called));
        CallerMarked(f0, f, called, s.id, queued, [called] + queue);
        assert [called] + (queue + [s.id]) == [called] + queue + [s.id];
        if changed && s.id !in queued {
          QueuedOnce(queued, s.id);
          queued, queue := queued + {s.id}, queue + [s.id];
        }
      }
      CallersMarked(f0, called, queued, queue);
    }

    // ----- arguments of function type -----

    /** callPassesAsyncFunctionArgument. */
    method CallPasses(site: CallSite) returns (b: bool)
      requires Valid()
      modifies this`functions
      ensures Valid() && Remembers(old(functions)) && Current() == old(Current()) && Argued() == old(Argued())
      ensures b <==> SitePasses(p, Current(), site)
    {
      hide Valid, Argued;
      if site.always { return true; }
      var rest := site.args;
      while rest != {}
        invariant rest <= site.args && Valid() && Remembers(old(functions)) && Current() == old(Current()) &&
          Argued() == old(Argued())
        invariant forall g :: g in site.args && g !in rest ==> !BodyAsync(p, Current(), g)
        decreases |rest|
      {
        var g :| g in rest;
        var semFn := SemanticFunctionFor(g);
        if semFn != null {
          BodyOf(g);
          if semFn.async { return true; }
        }
        rest := rest - {g};
      }
      b := false;
    }

    lemma {:induction false} BodyOf(g: Fn)
      requires Valid() && g in p.canon
      ensures p.canon[g] in objects && (objects[p.canon[g]].async <==> BodyAsync(p, Current(), g))
      ensures objects[p.canon[g]].hasBody <==> p.canon[g] in p.hasBody
      ensures objects[p.canon[g]].id == p.canon[g]
    {
    }

    ghost predicate SiteDone(f: Facts, c: CallSite)
    {
      c.called in p.canon && p.canon[c.called] in p.hasBody && SitePasses(p, f, c) ==> p.canon[c.called] in f.async
    }

    /** The facts that are forced from `f0` on by calls and arguments. */
    ghost predicate Forced(f0: Facts, f: Facts)
    {
      f.methods == f0.methods && f0.async <= f.async &&
      forall g :: CallClosed(p, g) && SitesClosed(p, g) && Below(p, f0, g) ==> Below(p, f, g)
    }

    /** One traversal of the call sites. */
    method ArgumentPass(ghost f0: Facts) returns (changed: bool)
      requires Valid() && Collected() && Forced(f0, Current())
      modifies this`functions, objects.Values
      ensures Valid() && Collected() && Remembers(old(functions)) && Forced(f0, Current())
      ensures changed ==> old(Argued()) < Argued()
      ensures !changed ==> Current() == old(Current()) && Argued() == old(Argued()) && SitesClosed(p, Current())
    {
      hide Valid, Current, Argued, Forced, SitePasses, Collected;
      changed := false;
      var rest := p.sites;
      while rest != {}
        invariant rest <= p.sites && Valid() && Collected() && Remembers(old(functions)) && Forced(f0, Current())
        invariant if changed then old(Argued()) < Argued() else Current() == old(Current()) && Argued() == old(Argued())
        invariant !changed ==> forall c :: c in p.sites && c !in rest ==> SiteDone(Current(), c)
        decreases |rest|
      {
        var c :| c in rest;
        var marked := ArgumentAt(f0, c);
        changed := changed || marked;
        rest := rest - {c};
      }
    }

    method ArgumentAt(ghost f0: Facts, c: CallSite) returns (changed: bool)
      requires c in p.sites && Valid() && Collected() && Forced(f0, Current())
      modifies this`functions, objects.Values
      ensures Valid() && Collected() && Remembers(old(functions)) && Forced(f0, Current())
      ensures if changed then old(Argued()) < Argued()
        else Current() == old(Current()) && Argued() == old(Argued()) && SiteDone(Current(), c)
    {
      hide Valid, Forced, Collected, SitePasses, WellFormed;
      changed := false;
      var semFn := SemanticFunctionFor(c.called);
      if semFn == null { return; }
      BodyOf(c.called);
      if !semFn.hasBody { return; }
      var passes := CallPasses(c);
      if passes {
        ArgumentForced(f0, Current(), c);
        changed := Mark(semFn, ARGUMENT);
      }
    }

    lemma {:induction false} ArgumentForced(f0: Facts, f: Facts, c: CallSite)
      requires Forced(f0, f) && c in p.sites && c.called in p.canon && p.canon[c.called] in p.hasBody
      requires SitePasses(p, f, c)
      ensures Forced(f0, AddAsync(f, p.canon[c.called]))
    {
      forall g | CallClosed(p, g) && SitesClosed(p, g) && Below(p, f0, g)
        ensures Below(p, AddAsync(f, p.canon[c.called]), g)
      {
        assert Below(p, f, g);
        assert SitePasses(p, g, c);
      }
    }

    method PropagateAsyncFunctionArguments()
      requires Valid() && Collected()
      modifies this`functions, objects.Values
      ensures Valid() && Collected() && Remembers(old(functions))
      ensures Current().methods == old(Current()).methods && old(Current()).async <= Current().async
      ensures SitesClosed(p, Current())
      ensures forall g :: CallClosed(p, g) && SitesClosed(p, g) && Below(p, old(Current()), g) ==>
        Below(p, Current(), g)
      ensures forall g: Facts :: Below(p, g, old(Current())) && SeenClosed(p, g, old(Current())) ==>
        SeenClosed(p, g, Current())
      ensures NoAliases(p) && CallClosed(p, old(Current())) ==> CallClosed(p, Current())
    {
      hide Valid, Current, Argued, Collected, SitesClosed, CallClosed, NoAliases, SeenClosed, Below;
      ghost var f0 := Current();
      ghost var calls := NoAliases(p) && CallClosed(p, f0);
      var changed := true;
      while changed
        invariant Valid() && Collected() && Remembers(old(functions)) && Forced(f0, Current())
        invariant !changed ==> SitesClosed(p, Current())
        invariant calls ==> CallClosed(p, Current())
        invariant SeenKept(f0, Current())
        decreases |objects.Keys - Argued()|, if changed then 1 else 0
      {
        ghost var before := Argued();
        changed := ArgumentPass(f0);
        if changed {
          ghost var f := Current();
          PropagateFunctionAsync();
          Spread(f, Current());
          SeenStays(f0, f, Current());
          PropagateForced(f0, f);
          FewerLeft(objects.Keys, before, Argued());
        }
      }
    }

    /** Calls seen from facts below `f0` stay closed. */
    ghost predicate SeenKept(f0: Facts, f: Facts)
    {
      forall g: Facts :: Below(p, g, f0) && SeenClosed(p, g, f0) ==> SeenClosed(p, g, f)
    }

    lemma {:induction false} SeenStays(f0: Facts, f1: Facts, f: Facts)
      requires Forced(f0, f1) && LeastSeen(p, f1, f)
      ensures SeenKept(f0, f)
    {
      forall g: Facts | Below(p, g, f0) && SeenClosed(p, g, f0) ensures SeenClosed(p, g, f) {
        assert Below(p, g, f1) by { assert forall fn :: MethodAsync(p, f0, fn) ==> MethodAsync(p, f1, fn); }
        SeenLater(p, g, f1, f);
      }
    }

    lemma {:induction false} PropagateForced(f0: Facts, f: Facts)
      requires Forced(f0, f) && Current().methods == f.methods && f.async <= Current().async
      requires forall g :: CallClosed(p, g) && Below(p, f, g) ==> Below(p, Current(), g)
      ensures Forced(f0, Current()) && Argued() <= objects.Keys
    {
    }

    // ----- interface edges -----

    /** applyInterfaceAsyncMethods, in any order of the edges. */
    method ApplyInterfaceAsyncMethods(ghost f0: Facts)
      requires Valid() && Collected() && Least(p, f0, Current())
      modifies this`functions, this`asyncInterfaceMethodObjs, this`asyncInterfaceMethods, objects.Values
      ensures Valid() && Collected() && Least(p, f0, Current()) && Remembers(old(functions))
      ensures Current().methods >= old(Current()).methods && Current().async >= old(Current()).async
      ensures forall e :: e in p.named ==> NamedDone(p, old(Current()), Current(), e)
    {
      hide Valid, Current, Collected, Least;
      var rest := p.named;
      while rest != {}
        invariant rest <= p.named && Valid() && Collected() && Least(p, f0, Current()) && Remembers(old(functions))
        invariant Current().methods >= old(Current()).methods && Current().async >= old(Current()).async
        invariant forall e :: e in p.named && e !in rest ==> NamedDone(p, old(Current()), Current(), e)
        decreases |rest|
      {
        var e :| e in rest;
        ghost var f := Current();
        NamedAt(f0, e);
        forall d | d in p.named && d !in rest
          ensures NamedDone(p, old(Current()), Current(), d)
        {
          Grows(p, f, Current());
        }
        rest := rest - {e};
      }
    }

    method NamedAt(ghost f0: Facts, e: Edge)
      requires e in p.named && Valid() && Collected() && Least(p, f0, Current())
      modifies this`functions, this`asyncInterfaceMethodObjs, this`asyncInterfaceMethods, objects.Values
      ensures Valid() && Collected() && Least(p, f0, Current()) && Remembers(old(functions))
      ensures Current().methods >= old(Current()).methods && Current().async >= old(Current()).async
      ensures NamedDone(p, Current(), Current(), e) && NamedDone(p, old(Current()), Current(), e)
    {
      hide Valid, Collected, Least, Argued, MethodAsync, WellFormed;
      if e.iface in p.syncError || e.impl in p.syncError { return; }
      var implFn := SemanticFunctionFor(e.impl);
      if implFn == null { return; }
      BodyOf(e.impl);
      if !implFn.async { return; }
      MarkInterface(f0, e);
      assert AddAsync(Current(), implFn.id) == Current();
      var _ := Mark(implFn, "interface-method");
    }

    /** The method of the interface is async, and so is a function that stands for it. */
    method MarkInterface(ghost f0: Facts, e: Edge)
      requires Valid() && Collected() && Least(p, f0, Current()) && e in p.named && Counts(p, e)
      requires BodyAsync(p, Current(), e.impl)
      modifies this`functions, this`asyncInterfaceMethodObjs, this`asyncInterfaceMethods, objects.Values
      ensures Valid() && Collected() && Least(p, f0, Current()) && Remembers(old(functions))
      ensures Current().methods >= old(Current()).methods && Current().async >= old(Current()).async
      ensures MethodAsync(p, Current(), e.iface) && (e.iface in p.canon ==> p.canon[e.iface] in Current().async)
    {
      hide Valid, Current, Collected, Least, Argued, MethodAsync, WellFormed, BodyAsync, Counts;
      LeastNamed(p, f0, Current(), e);
      MarkInterfaceMethodAsync(e.iface);
      MethodIsAsync(e.iface);
      var ifaceFn := SemanticFunctionFor(e.iface);
      if ifaceFn != null {
        BodyOf(e.iface);
        var _ := Mark(ifaceFn, "interface-implementation");
      }
    }

    lemma {:induction false} MethodIsAsync(m: Fn)
      requires Valid() && m in Current().methods
      ensures forall f: Facts :: m in f.methods ==> MethodAsync(p, f, m)
    {
      assert SameName(p, m, m);
    }

    /** applyAnonymousInterfaceAsyncMethods, in any order of the edges. */
    method ApplyAnonymousInterfaceAsyncMethods(ghost f0: Facts)
      requires Valid() && Collected() && Least(p, f0, Current())
      modifies this`functions, this`asyncInterfaceMethodObjs, this`asyncInterfaceMethods
      ensures Valid() && Collected() && Least(p, f0, Current()) && Remembers(old(functions))
      ensures Current().methods >= old(Current()).methods && Current().async == old(Current()).async
      ensures Transitive(p) ==> AnonymousClosed(p, Current())
    {
      hide Valid, Current, Collected, Least, Transitive;
      ghost var start := Current();
      var rest := p.anonymous;
      while rest != {}
        invariant rest <= p.anonymous && Valid() && Collected() && Least(p, f0, Current()) && Remembers(old(functions))
        invariant Current().methods >= start.methods && Current().async == start.async
        invariant Transitive(p) ==> Rooted(p, start, Current())
        invariant forall e :: e in p.anonymous && e !in rest ==> AnonymousDone(p, start, Current(), e)
        decreases |rest|
      {
        var e :| e in rest;
        ghost var f := Current();
        AnonymousAt(f0, start, e);
        forall d | d in p.anonymous && d !in rest
          ensures AnonymousDone(p, start, Current(), d)
        {
          Grows(p, f, Current());
        }
        rest := rest - {e};
      }
      if Transitive(p) { OnePassCloses(p, start, Current()); }
    }

    method AnonymousAt(ghost f0: Facts, ghost start: Facts, e: Edge)
      requires e in p.anonymous && Valid() && Collected() && Least(p, f0, Current())
      requires start.methods <= Current().methods && start.async == Current().async
      requires (Transitive(p) ==> Rooted(p, start, Current()))
      modifies this`functions, this`asyncInterfaceMethodObjs, this`asyncInterfaceMethods
      ensures Valid() && Collected() && Least(p, f0, Current()) && Remembers(old(functions))
      ensures Current().methods >= old(Current()).methods && Current().async == old(Current()).async
      ensures Transitive(p) ==> Rooted(p, start, Current())
      ensures AnonymousDone(p, start, Current(), e)
    {
      hide Valid, Collected, Least, Transitive, FnAsync, Current;
      Grows(p, start, Current());
      if e.iface in p.syncError || e.impl in p.syncError { return; }
      var async := FunctionAsync(e.impl);
      if !async {
        NotAsyncBefore(p, start, Current(), e.impl);
        return;
      }
      LeastAnonymous(p, f0, Current(), e);
      if Transitive(p) { RootOf(p, start, Current(), e); }
      MarkInterfaceMethodAsync(e.iface);
      assert SameName(p, e.iface, e.iface);
    }

    // ----- the outer loop -----

    ghost function AsyncKeys(): (r: set<Fn>)
      reads this, functions.Values
    {
      set fn | fn in functions && functions[fn].async
    }

    /** semanticAsyncFunctionCount: objects that stand for the same function count once each. */
    method SemanticAsyncFunctionCount() returns (count: nat)
      ensures count == |AsyncKeys()|
    {
      count := 0;
      var rest := functions.Keys;
      ghost var seen: set<Fn> := {};
      while rest != {}
        invariant rest <= functions.Keys && count == |seen|
        invariant seen == set fn | fn in functions && fn !in rest && functions[fn].async
        decreases |rest|
      {
        var fn :| fn in rest;
        if functions[fn].async {
          assert fn !in seen;
          count := count + 1;
          seen := seen + {fn};
        }
        rest := rest - {fn};
      }
      assert seen == AsyncKeys();
    }

    /** The loop of Build. It compares only counts, and yet it stops at a fixpoint that is the
        least one above the facts it started from. */
    method CloseOverInterfaces()
      requires Valid() && Collected()
      modifies this`functions, this`asyncInterfaceMethodObjs, this`asyncInterfaceMethods, objects.Values
      ensures Valid() && Collected()
      ensures CallClosed(p, Current()) && NamedClosed(p, Current()) && (Transitive(p) ==> AnonymousClosed(p, Current()))
      ensures Least(p, old(Current()), Current())
    {
      hide Valid, Current, Collected, Least, CallClosed, NamedClosed, AnonymousClosed, Transitive, AsyncKeys, Argued,
           Below, NoAliases, FnAsync;
      ghost var f0 := Current();
      LeastStarts(p, f0);
      while true
        invariant Valid() && Collected() && Least(p, f0, Current())
        decreases |p.canon.Keys| - |AsyncKeys()|
      {
        ghost var keys, f1 := AsyncKeys(), Current();
        ghost var known := functions;
        KeysAre();
        var asyncCount := SemanticAsyncFunctionCount();
        ApplyRound(f0);
        var count := SemanticAsyncFunctionCount();
        KeysAre();
        CountGrows(f1, known, keys);
        if count == asyncCount { break; }
      }
    }

    /** One round of the loop. When it makes no function async, it leaves everything closed. */
    method ApplyRound(ghost f0: Facts)
      requires Valid() && Collected() && Least(p, f0, Current())
      modifies this`functions, this`asyncInterfaceMethodObjs, this`asyncInterfaceMethods, objects.Values
      ensures Valid() && Collected() && Least(p, f0, Current()) && Remembers(old(functions))
      ensures old(Current()).async <= Current().async
      ensures Current().async == old(Current()).async ==>
        CallClosed(p, Current()) && NamedClosed(p, Current()) && (Transitive(p) ==> AnonymousClosed(p, Current()))
    {
      hide Valid, Current, Collected, Least, CallClosed, NamedClosed, AnonymousClosed, Transitive, Argued, Below,
           NoAliases, FnAsync;
      ghost var f1 := Current();
      ApplyInterfaceAsyncMethods(f0);
      ghost var f2 := Current();
      ApplyAnonymousInterfaceAsyncMethods(f0);
      ghost var f3 := Current();
      PropagateFunctionAsync();
      Spread(f3, Current());
      LeastCalls(p, f0, f3, Current());
      if Current().async == f1.async { StableRound(p, f1, f2, f3, Current()); }
    }

    /** The async part of Build: nothing is async without a reason, and what the interface edges
        and the calls ask for is async. `start` holds the facts at which the outer loop starts. */
    method InferAsync() returns (ghost start: Facts)
      requires Valid()
      modifies this`functions, this`functionCallers, this`asyncInterfaceMethodObjs, this`asyncInterfaceMethods,
        objects.Values
      ensures Valid() && Collected() && Inferred(p, old(Current()), start, Current())
      ensures NothingGained(p, start, Current()) ==> SitesClosed(p, Current())
      ensures Transitive(p) ==> (SitesClosed(p, Current()) <==> SitesKept(p, start))
      ensures forall g :: Closed(p, g) && SitesClosed(p, g) && Below(p, old(Current()), g) ==> Below(p, Current(), g)
    {
      hide Valid, Current, Collected, CallClosed, NamedClosed, AnonymousClosed, SitesClosed, Transitive, Below,
           NothingGained, SitesKept, SeenClosed;
      CollectCallers();
      ghost var f0 := Current();
      PropagateFunctionAsync();
      Spread(f0, Current());
      Grows(p, f0, Current());
      PropagateAsyncFunctionArguments();
      start := Current();
      CloseOverInterfaces();
      SitesClosedExactly(p, start, Current());
    }

    lemma {:induction false} KeysAre()
      requires Valid()
      ensures forall i :: i in objects ==> i in functions
      ensures forall fn :: fn in AsyncKeys() <==> fn in functions && functions[fn].id in Current().async
    {
    }

    /** The count only grows, and when it does not grow no function became async. */
    lemma {:induction false} CountGrows(f1: Facts, known: map<Fn, SemanticFunction>, keys: set<Fn>)
      requires Valid() && Remembers(known) && f1.async <= Current().async
      requires forall fn :: fn in keys <==> fn in known && known[fn].id in f1.async
      requires forall i :: i in objects ==> i in known
      requires forall fn :: fn in AsyncKeys() <==> fn in functions && functions[fn].id in Current().async
      ensures |keys| <= |AsyncKeys()| <= |p.canon.Keys|
      ensures |keys| == |AsyncKeys()| ==> f1.async == Current().async
    {
      var after := AsyncKeys();
      assert keys <= after <= p.canon.Keys;
      SubsetSize(keys, after);
      SubsetSize(after, p.canon.Keys);
      if |keys| == |after| {
        SameSize(keys, after);
        forall i | i in Current().async ensures i in f1.async {
          assert i in objects && i in functions && functions[i].id == i;
          assert i in after;
        }
      }
    }

    lemma {:induction false} WorklistStarts(queue: seq<Fn>, queued: set<Fn>)
      requires Valid() && forall q :: q in queued <==> q in queue
      requires forall k :: k in queue <==> k in functionCallers && FnAsync(p, Current(), k)
      ensures Worklist(Current(), Current(), queued, queue)
    {
    }

    lemma {:induction false} FirstQueued(f0: Facts, called: Fn, queued: set<Fn>, queue: seq<Fn>)
      requires Valid() && Worklist(f0, Current(), queued, [called] + queue)
      ensures called in queued
    {
      assert called in [called] + queue;
    }

    lemma {:induction false} CallerOf(called: Fn, s: SemanticFunction)
      requires Valid() && called in functionCallers && s in functionCallers[called]
      ensures WellFormed(p) && s in objects.Values && s.id in objects && s.id in p.calls && called in p.calls[s.id]
    {
    }

    lemma {:induction false} CallerMarked(f0: Facts, f: Facts, called: Fn, s: Fn, queued: set<Fn>, queue: seq<Fn>)
      requires WellFormed(p) && s in p.calls && called in p.calls[s] && called in queued
      requires Worklist(f0, f, queued, queue)
      ensures Worklist(f0, AddAsync(f, s), queued + {s}, queue + [s])
      ensures s in queued || s in f.async ==> Worklist(f0, AddAsync(f, s), queued, queue)
    {
      var f1 := AddAsync(f, s);
      forall g | SeenClosed(p, f0, g) && f0.async <= g.async ensures f1.async <= g.async {
        assert f.async <= g.async && Seen(p, f0, g, called);
      }
    }

    lemma {:induction false} CallersMarked(f0: Facts, called: Fn, queued: set<Fn>, queue: seq<Fn>)
      requires Valid() && Collected() && called in functionCallers && Worklist(f0, Current(), queued, [called] + queue)
      requires forall s :: s in functionCallers[called] ==> s.id in Current().async
      ensures Worklist(f0, Current(), queued, queue)
    {
      forall s | s in p.calls && called in p.calls[s] ensures s in Current().async {
        assert objects[s] in functionCallers[called];
      }
      assert CallersDone(called, Current());
      WithoutFirst(f0, Current(), called, queued, queue);
    }

    lemma {:induction false} NothingCalls(f0: Facts, called: Fn, queued: set<Fn>, queue: seq<Fn>)
      requires Valid() && Collected() && called !in functionCallers && Worklist(f0, Current(), queued, [called] + queue)
      ensures Worklist(f0, Current(), queued, queue)
    {
      assert CallersDone(called, Current());
      WithoutFirst(f0, Current(), called, queued, queue);
    }

    lemma {:induction false} WithoutFirst(f0: Facts, f: Facts, called: Fn, queued: set<Fn>, queue: seq<Fn>)
      requires Worklist(f0, f, queued, [called] + queue) && CallersDone(called, f)
      ensures Worklist(f0, f, queued, queue)
    {
      forall q | q in queue ensures q in queued { assert q in [called] + queue; }
    }

    lemma {:induction false} WorklistEnds(f0: Facts, queued: set<Fn>)
      requires Valid() && Collected() && Worklist(f0, Current(), queued, [])
      ensures LeastSeen(p, f0, Current())
    {
      var f := Current();
      forall s, k | s in p.calls && k in p.calls[s] && Seen(p, f0, f, k) ensures s in f.async {
        assert k in functionCallers;
        if FnAsync(p, f0, k) {
          assert CallersDone(k, f);
        } else {
          if k in f0.async { OwnObject(p, f0, k); }
          assert k in queued && CallersDone(k, f);
        }
      }
    }
  }
}
