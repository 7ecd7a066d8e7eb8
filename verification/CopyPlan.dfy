/** Planning which override packages to copy (compiler/override-registry.go). */
module CopyPlan {
  import opened FiniteSets

  /** What each override package depends on. */
  type Facts = map<string, seq<string>>

  datatype Diagnostic = DependencyCycle(package: string) | MissingPackage(package: string)

  predicate DependsOn(facts: Facts, a: string, b: string)
  {
    a in facts && b in facts[a]
  }

  ghost predicate Path(facts: Facts, path: seq<string>)
  {
    path != [] && forall i :: 0 <= i < |path| - 1 ==> DependsOn(facts, path[i], path[i + 1])
  }

  function End(path: seq<string>): string
    requires path != []
  {
    path[|path| - 1]
  }

  /** The path ends at a package that does not exist, that is in `open`, or that it has passed. */
  ghost predicate DeadEnd(facts: Facts, open: set<string>, path: seq<string>)
  {
    Path(facts, path) && (End(path) !in facts || End(path) in open || End(path) in path[..|path| - 1])
  }

  /** A missing package or a cycle can be reached. */
  ghost predicate Bad(facts: Facts, open: set<string>, package: string)
  {
    exists path :: DeadEnd(facts, open, path) && path[0] == package
  }

  /** The packages are different, exist and are not in `open`. */
  ghost predicate Simple(facts: Facts, open: set<string>, path: seq<string>)
  {
    && (forall i :: 0 <= i < |path| ==> path[i] in facts && path[i] !in open)
    && (forall i, j :: 0 <= i < j < |path| ==> path[i] != path[j])
  }

  /** The path leads without repetition to a package that does not exist, or to one that is in `open`
      or that it has passed. */
  ghost predicate Shows(facts: Facts, open: set<string>, path: seq<string>, d: Diagnostic)
  {
    && Path(facts, path) && Simple(facts, open, path[..|path| - 1]) && End(path) == d.package
    && match d
       case MissingPackage(x) => x !in facts
       case DependencyCycle(x) => x in open || x in path[..|path| - 1]
  }

  /** The diagnostic is due for the package while those in `open` are being added. */
  ghost predicate Due(facts: Facts, open: set<string>, package: string, d: Diagnostic)
  {
    exists path :: Shows(facts, open, path, d) && path[0] == package
  }

  /** No package twice, and each behind everything it depends on. */
  ghost predicate Ordered(facts: Facts, plan: seq<string>)
  {
    && (forall i, j :: 0 <= i < j < |plan| ==> plan[i] != plan[j])
    && (forall i, d :: 0 <= i < |plan| && DependsOn(facts, plan[i], d) ==> d in plan[..i])
    && (forall i :: 0 <= i < |plan| ==> plan[i] in facts)
  }

  /** The package can be reached from one of `roots`. */
  ghost predicate Reached(facts: Facts, roots: set<string>, x: string)
  {
    exists path :: Path(facts, path) && path[0] in roots && End(path) == x
  }

  /** Every planned package is needed by one of `roots`. */
  ghost predicate Needed(facts: Facts, roots: set<string>, plan: seq<string>)
  {
    forall x :: x in plan ==> Reached(facts, roots, x)
  }

  lemma {:induction false} PathMore(facts: Facts, a: string, path: seq<string>)
    requires Path(facts, path) && DependsOn(facts, a, path[0])
    ensures Path(facts, [a] + path) && End([a] + path) == End(path)
  {
    var q := [a] + path;
    forall i | 0 <= i < |q| - 1 ensures DependsOn(facts, q[i], q[i + 1]) {
      if i > 0 { assert DependsOn(facts, path[i - 1], path[i - 1 + 1]); }
    }
  }

  /** Along a path the planned positions fall. */
  lemma {:induction false} PathFalls(facts: Facts, plan: seq<string>, path: seq<string>, k: nat) returns (at: nat)
    requires Ordered(facts, plan) && Path(facts, path) && k < |plan| && plan[k] == path[0]
    ensures at < |plan| && plan[at] == End(path) && (|path| > 1 ==> at < k)
    decreases |path|
  {
    if |path| == 1 {
      at := k;
    } else {
      assert DependsOn(facts, path[0], path[0 + 1]);
      assert path[1] in plan[..k];
      var j :| 0 <= j < k && plan[..k][j] == path[1];
      assert Path(facts, path[1..]) by {
        forall i | 0 <= i < |path[1..]| - 1
          ensures DependsOn(facts, path[1..][i], path[1..][i + 1])
        {
          assert DependsOn(facts, path[i + 1], path[i + 1 + 1]);
        }
      }
      at := PathFalls(facts, plan, path[1..], j);
    }
  }

  /** From a planned package no path meets a missing package, a cycle, or a package that is open. */
  lemma {:induction false} PlannedIsGood(facts: Facts, plan: seq<string>, open: set<string>, package: string)
    requires Ordered(facts, plan) && package in plan && forall p :: p in plan ==> p !in open
    ensures !Bad(facts, open, package)
  {
    forall path | Path(facts, path) && path[0] == package ensures !DeadEnd(facts, open, path) {
      var k :| 0 <= k < |plan| && plan[k] == package;
      var at := PathFalls(facts, plan, path, k);
      if End(path) in path[..|path| - 1] {
        var i :| 0 <= i < |path| - 1 && path[i] == End(path);
        PassedTwice(facts, plan, path, k, i);
      }
    }
  }

  lemma {:induction false} PassedTwice(facts: Facts, plan: seq<string>, path: seq<string>, k: nat, i: nat)
    requires Ordered(facts, plan) && Path(facts, path) && k < |plan| && plan[k] == path[0] && i < |path| - 1
    ensures path[i] != End(path)
  {
    var head, tail := path[..i + 1], path[i..];
    assert Path(facts, head) by {
      forall j | 0 <= j < |head| - 1
        ensures DependsOn(facts, head[j], head[j + 1])
      {
        assert DependsOn(facts, path[j], path[j + 1]);
      }
    }
    assert Path(facts, tail) by {
      forall j | 0 <= j < |tail| - 1
        ensures DependsOn(facts, tail[j], tail[j + 1])
      {
        assert DependsOn(facts, path[i + j], path[i + j + 1]);
      }
    }
    var at := PathFalls(facts, plan, head, k);
    var last := PathFalls(facts, plan, tail, at);
  }

  lemma {:induction false} BadBehind(facts: Facts, open: set<string>, package: string)
    requires package in facts && package !in open
    ensures Bad(facts, open, package) <==> exists d :: d in facts[package] && Bad(facts, open + {package}, d)
  {
    if Bad(facts, open, package) {
      var path :| DeadEnd(facts, open, path) && path[0] == package;
      BadTail(facts, open, path);
    }
    if d :| d in facts[package] && Bad(facts, open + {package}, d) {
      var path :| DeadEnd(facts, open + {package}, path) && path[0] == d;
      PathMore(facts, package, path);
      var q := [package] + path;
      assert q[..|q| - 1] == [package] + path[..|path| - 1];
      assert DeadEnd(facts, open, q);
    }
  }

  lemma {:induction false} BadTail(facts: Facts, open: set<string>, path: seq<string>)
    requires DeadEnd(facts, open, path) && path[0] in facts && path[0] !in open
    ensures |path| > 1 && path[1] in facts[path[0]] && Bad(facts, open + {path[0]}, path[1])
  {
    assert |path| > 1;
    assert DependsOn(facts, path[0], path[0 + 1]);
    var q := path[1..];
    forall i | 0 <= i < |q| - 1
      ensures DependsOn(facts, q[i], q[i + 1])
    {
      assert DependsOn(facts, path[i + 1], path[i + 1 + 1]);
    }
    assert path[..|path| - 1] == [path[0]] + q[..|q| - 1];
    assert DeadEnd(facts, open + {path[0]}, q);
  }

  /** A diagnostic is due exactly when it is due for a dependency. */
  lemma {:induction false} DueBehind(facts: Facts, open: set<string>, package: string, d: Diagnostic)
    requires package in facts && package !in open && open <= facts.Keys
    ensures Due(facts, open, package, d) <==> exists x :: x in facts[package] && Due(facts, open + {package}, x, d)
  {
    if Due(facts, open, package, d) {
      var path :| Shows(facts, open, path, d) && path[0] == package;
      DueTail(facts, open, path, d);
    }
    if x :| x in facts[package] && Due(facts, open + {package}, x, d) {
      var path :| Shows(facts, open + {package}, path, d) && path[0] == x;
      PathMore(facts, package, path);
      var q := [package] + path;
      assert q[..|q| - 1] == [package] + path[..|path| - 1];
      assert Shows(facts, open, q, d);
    }
  }

  lemma {:induction false} DueTail(facts: Facts, open: set<string>, path: seq<string>, d: Diagnostic)
    requires Shows(facts, open, path, d) && path[0] in facts && path[0] !in open
    ensures |path| > 1 && path[1] in facts[path[0]] && Due(facts, open + {path[0]}, path[1], d)
  {
    assert |path| > 1;
    assert DependsOn(facts, path[0], path[0 + 1]);
    var q := path[1..];
    forall i | 0 <= i < |q| - 1
      ensures DependsOn(facts, q[i], q[i + 1])
    {
      assert DependsOn(facts, path[i + 1], path[i + 1 + 1]);
    }
    var front := path[..|path| - 1];
    assert front == [path[0]] + q[..|q| - 1];
    forall i | 0 <= i < |q| - 1 ensures q[i] in facts && q[i] !in open + {path[0]} { assert q[i] == front[i + 1]; }
    forall i, j | 0 <= i < j < |q| - 1 ensures q[i] != q[j] { assert q[i] == front[i + 1] && q[j] == front[j + 1]; }
    assert Shows(facts, open + {path[0]}, q, d);
  }

  /** A diagnostic is due only when something bad can be reached. */
  lemma {:induction false} DueIsBad(facts: Facts, open: set<string>, package: string, d: Diagnostic)
    requires Due(facts, open, package, d)
    ensures Bad(facts, open, package)
  {
    var path :| Shows(facts, open, path, d) && path[0] == package;
    assert DeadEnd(facts, open, path);
  }

  lemma {:induction false} PassedFirst(facts: Facts, open: set<string>, path: seq<string>, d: Diagnostic)
    requires Shows(facts, open, path, d)
    ensures |path| > 1 ==> path[0] in facts && path[0] !in open
  {
    assert |path| > 1 ==> path[..|path| - 1][0] == path[0];
  }

  /** For a package that is missing or open, and nothing else, this is the one diagnostic. */
  lemma {:induction false} DueHere(facts: Facts, open: set<string>, package: string)
    requires open <= facts.Keys && (package !in facts || package in open)
    ensures forall d :: Due(facts, open, package, d) <==>
      d == if package in open then DependencyCycle(package) else MissingPackage(package)
  {
    var e := if package in open then DependencyCycle(package) else MissingPackage(package);
    forall d ensures Due(facts, open, package, d) <==> d == e {
      if Due(facts, open, package, d) {
        var path :| Shows(facts, open, path, d) && path[0] == package;
        PassedFirst(facts, open, path, d);
        assert |path| == 1;
      }
      if d == e { assert Shows(facts, open, [package], e); }
    }
  }

  lemma {:induction false} NeededMore(facts: Facts, package: string, d: string, a: seq<string>, b: seq<string>,
                                      c: seq<string>)
    requires a <= b <= c && DependsOn(facts, package, d)
    requires Needed(facts, {package}, b[|a|..]) && Needed(facts, {d}, c[|b|..])
    ensures Needed(facts, {package}, c[|a|..])
  {
    assert c[|a|..] == b[|a|..] + c[|b|..];
    forall x | x in c[|b|..] ensures Reached(facts, {package}, x) {
      var path :| Path(facts, path) && path[0] in {d} && End(path) == x;
      PathMore(facts, package, path);
      assert ([package] + path)[0] == package;
    }
  }

  lemma {:induction false} NeededSelf(facts: Facts, package: string, a: seq<string>, b: seq<string>)
    requires a <= b && Needed(facts, {package}, b[|a|..])
    ensures Needed(facts, {package}, (b + [package])[|a|..])
  {
    assert (b + [package])[|a|..] == b[|a|..] + [package];
    assert Path(facts, [package]) && End([package]) == package;
  }

  lemma {:induction false} OrderedMore(facts: Facts, plan: seq<string>, package: string)
    requires Ordered(facts, plan) && package in facts && package !in plan
    requires forall d :: d in facts[package] ==> d in plan
    ensures Ordered(facts, plan + [package])
  {
    var more := plan + [package];
    forall i, d | 0 <= i < |more| && DependsOn(facts, more[i], d) ensures d in more[..i] {
      if i < |plan| { assert more[..i] == plan[..i]; } else { assert more[..i] == plan; }
    }
  }

  class Planner {
    const facts: Facts
    var visiting: set<string>
    var visited: set<string>
    var plan: seq<string>

    constructor (facts: Facts)
      ensures this.facts == facts && Valid() && visiting == {} && plan == []
    {
      this.facts := facts;
      visiting, visited, plan := {}, {}, [];
    }

    ghost predicate Valid()
      reads this
    {
      && Ordered(facts, plan) && visiting <= facts.Keys
      && (forall p :: p in visited <==> p in plan)
      && (forall p :: p in visiting ==> p !in visited)
    }

    /** addPackageToPlan. */
    method AddPackageToPlan(package: string) returns (diagnostics: seq<Diagnostic>)
      requires Valid()
      modifies this
      ensures Valid() && visiting == old(visiting) && old(plan) <= plan
      ensures diagnostics == [] <==> !Bad(facts, visiting, package)
      ensures forall d :: d in diagnostics <==> Due(facts, visiting, package, d)
      ensures diagnostics == [] ==> package in plan
      ensures Needed(facts, {package}, plan[|old(plan)|..])
      decreases |facts.Keys - visiting|
    {
      if package in visited {
        PlannedIsGood(facts, plan, visiting, package);
        forall d ensures !Due(facts, visiting, package, d) {
          if Due(facts, visiting, package, d) { DueIsBad(facts, visiting, package, d); }
        }
        return [];
      }
      if package in visiting {
        assert DeadEnd(facts, visiting, [package]);
        DueHere(facts, visiting, package);
        return [DependencyCycle(package)];
      }
      if package !in facts {
        assert DeadEnd(facts, visiting, [package]);
        DueHere(facts, visiting, package);
        return [MissingPackage(package)];
      }
      visiting := visiting + {package};
      diagnostics := AddDependencies(package, old(visiting));
      visiting := visiting - {package};
      assert visiting == old(visiting);
      BadBehind(facts, visiting, package);
      forall d ensures d in diagnostics <==> Due(facts, visiting, package, d) {
        DueBehind(facts, visiting, package, d);
      }
      if diagnostics != [] { return; }
      NeededSelf(facts, package, old(plan), plan);
      OrderedMore(facts, plan, package);
      visited, plan := visited + {package}, plan + [package];
      PlannedIsGood(facts, plan, visiting, package);
    }

    method AddDependencies(package: string, ghost open: set<string>) returns (diagnostics: seq<Diagnostic>)
      requires Valid() && package in facts && package !in open && visiting == open + {package}
      modifies this
      ensures Valid() && visiting == old(visiting) && old(plan) <= plan
      ensures diagnostics == [] <==> forall d :: d in facts[package] ==> !Bad(facts, visiting, d)
      ensures forall d :: d in diagnostics <==> exists x :: x in facts[package] && Due(facts, visiting, x, d)
      ensures diagnostics == [] ==> forall d :: d in facts[package] ==> d in plan
      ensures Needed(facts, {package}, plan[|old(plan)|..])
      decreases |facts.Keys - open|, 0
    {
      var dependencies := facts[package];
      diagnostics := [];
      for i := 0 to |dependencies|
        invariant Valid() && visiting == open + {package} && old(plan) <= plan
        invariant diagnostics == [] <==> forall d :: d in dependencies[..i] ==> !Bad(facts, visiting, d)
        invariant forall d :: d in diagnostics <==> exists x :: x in dependencies[..i] && Due(facts, visiting, x, d)
        invariant diagnostics == [] ==> forall d :: d in dependencies[..i] ==> d in plan
        invariant Needed(facts, {package}, plan[|old(plan)|..])
      {
        ghost var before := plan;
        OneFewer(facts.Keys, open, package);
        var more := AddPackageToPlan(dependencies[i]);
        NeededMore(facts, package, dependencies[i], old(plan), before, plan);
        diagnostics := diagnostics + more;
        assert dependencies[..i + 1] == dependencies[..i] + [dependencies[i]];
      }
      assert dependencies[..|dependencies|] == dependencies;
    }
  }

  const BUILTIN: string := "builtin"

  /** One of the first `n` roots needs each of these. */
  ghost predicate NeededUpTo(facts: Facts, roots: seq<string>, n: int, part: seq<string>)
  {
    forall x :: x in part ==> exists k :: 0 <= k < n && k < |roots| && Reached(facts, {roots[k]}, x)
  }

  /** In front of each of the first `n` roots stands only what it or a root in front of it needs. */
  ghost predicate InTurn(facts: Facts, roots: seq<string>, n: int, plan: seq<string>)
  {
    forall i, p :: 0 <= i < n && i < |roots| && 0 <= p < |plan| && plan[p] == roots[i] ==>
      NeededUpTo(facts, roots, i + 1, plan[..p])
  }

  /** CopyPlan: plans `builtin` and the override packages of the graph, in node order. The plan is
      what is needed, without repetition, dependencies first and otherwise in that order; planning
      fails exactly when a missing package or a cycle can be reached, and says which. */
  method Plan(facts: Facts, overrides: seq<string>) returns (diagnostics: seq<Diagnostic>, plan: seq<string>)
    ensures diagnostics == [] <==> forall r :: r == BUILTIN || r in overrides ==> !Bad(facts, {}, r)
    ensures forall d :: d in diagnostics <==> exists r :: (r == BUILTIN || r in overrides) && Due(facts, {}, r, d)
    ensures diagnostics == [] ==> Ordered(facts, plan) && BUILTIN in plan && forall r :: r in overrides ==> r in plan
    ensures diagnostics == [] ==> Needed(facts, {BUILTIN} + (set r | r in overrides), plan)
    ensures diagnostics == [] ==> InTurn(facts, [BUILTIN] + overrides, |overrides| + 1, plan)
  {
    hide Bad, Due, Needed, NeededUpTo, InTurn, Ordered;
    var planner := new Planner(facts);
    ghost var roots := [BUILTIN] + overrides;
    NothingPlanned(facts, roots);
    diagnostics := planner.AddPackageToPlan(BUILTIN);
    PlanDistinct(planner);
    assert roots[0] == BUILTIN && planner.plan[0..] == planner.plan;
    if diagnostics == [] { OneMoreRoot(facts, roots, 0, [], planner.plan); }
    for i := 0 to |overrides|
      invariant planner.Valid() && planner.visiting == {} && planner.facts == facts && fresh(planner)
      invariant diagnostics == [] <==> forall k :: 0 <= k <= i ==> !Bad(facts, {}, roots[k])
      invariant forall d :: d in diagnostics <==> exists k :: 0 <= k <= i && Due(facts, {}, roots[k], d)
      invariant diagnostics == [] ==> forall k :: 0 <= k <= i ==> roots[k] in planner.plan
      invariant diagnostics == [] ==>
        NeededUpTo(facts, roots, i + 1, planner.plan) && InTurn(facts, roots, i + 1, planner.plan)
    {
      ghost var before := planner.plan;
      assert roots[i + 1] == overrides[i];
      var more := planner.AddPackageToPlan(overrides[i]);
      PlanDistinct(planner);
      if diagnostics + more == [] { OneMoreRoot(facts, roots, i + 1, before, planner.plan); }
      diagnostics := diagnostics + more;
    }
    forall r ensures r == BUILTIN || r in overrides <==> exists k :: 0 <= k <= |overrides| && roots[k] == r {
      RootAt(overrides, r);
    }
    plan := planner.plan;
    if diagnostics != [] { plan := []; } else { AllNeeded(facts, overrides, plan); }
  }

  lemma {:induction false} RootAt(overrides: seq<string>, r: string)
    ensures r == BUILTIN || r in overrides <==>
      exists k :: 0 <= k <= |overrides| && ([BUILTIN] + overrides)[k] == r
  {
    var roots := [BUILTIN] + overrides;
    assert r in roots <==> r == BUILTIN || r in overrides;
  }

  lemma {:induction false} NothingPlanned(facts: Facts, roots: seq<string>)
    ensures NeededUpTo(facts, roots, 0, []) && InTurn(facts, roots, 0, [])
  {
  }

  lemma {:induction false} AllNeeded(facts: Facts, overrides: seq<string>, plan: seq<string>)
    requires NeededUpTo(facts, [BUILTIN] + overrides, |overrides| + 1, plan)
    ensures Needed(facts, {BUILTIN} + (set r | r in overrides), plan)
  {
    var roots, all := [BUILTIN] + overrides, {BUILTIN} + (set r | r in overrides);
    forall x | x in plan ensures Reached(facts, all, x) {
      var k :| 0 <= k < |roots| && Reached(facts, {roots[k]}, x);
      var path :| Path(facts, path) && path[0] in {roots[k]} && End(path) == x;
      assert path[0] in all;
    }
  }

  lemma {:induction false} MoreNeeded(facts: Facts, roots: seq<string>, i: nat, a: seq<string>, b: seq<string>)
    requires i < |roots| && a <= b && NeededUpTo(facts, roots, i, a) && Needed(facts, {roots[i]}, b[|a|..])
    ensures NeededUpTo(facts, roots, i + 1, b)
  {
    hide Reached;
    assert b == a + b[|a|..];
    forall x | x in b ensures exists k :: 0 <= k < i + 1 && k < |roots| && Reached(facts, {roots[k]}, x) {
      if x in b[|a|..] { assert Reached(facts, {roots[i]}, x); }
    }
  }

  lemma {:induction false} PartNeeded(facts: Facts, roots: seq<string>, n: int, b: seq<string>, p: nat)
    requires NeededUpTo(facts, roots, n, b) && p <= |b|
    ensures NeededUpTo(facts, roots, n, b[..p])
  {
    hide Reached;
    forall x | x in b[..p] ensures x in b { }
  }

  lemma {:induction false} OneMoreRoot(facts: Facts, roots: seq<string>, i: nat, a: seq<string>, b: seq<string>)
    requires i < |roots| && a <= b && Needed(facts, {roots[i]}, b[|a|..])
    requires NeededUpTo(facts, roots, i, a) && InTurn(facts, roots, i, a) && forall k :: 0 <= k < i ==> roots[k] in a
    requires Distinct(b)
    ensures NeededUpTo(facts, roots, i + 1, b) && InTurn(facts, roots, i + 1, b)
  {
    hide NeededUpTo, Needed;
    MoreNeeded(facts, roots, i, a, b);
    forall k, p | 0 <= k < i + 1 && 0 <= p < |b| && b[p] == roots[k] ensures NeededUpTo(facts, roots, k + 1, b[..p]) {
      if k < i {
        var q :| 0 <= q < |a| && a[q] == roots[k];
        assert b[q] == b[p];
        assert b[..p] == a[..p];
      } else {
        PartNeeded(facts, roots, i + 1, b, p);
      }
    }
  }

  predicate Distinct(plan: seq<string>)
  {
    forall i, j :: 0 <= i < j < |plan| ==> plan[i] != plan[j]
  }

  lemma {:induction false} PlanDistinct(planner: Planner)
    requires planner.Valid()
    ensures Distinct(planner.plan) && Ordered(planner.facts, planner.plan)
  {
  }
}
