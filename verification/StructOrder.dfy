/** The order struct declarations are emitted in (compiler/typescript-emitter.go). */
module StructOrder {
  import opened FiniteSets

  datatype Field = Field(structValue: bool, zero: string)

  datatype Struct = Struct(name: string, fields: seq<Field>)

  predicate Contains(s: string, sub: string)
  {
    exists k :: 0 <= k <= |s| && sub <= s[k..]
  }

  lemma {:induction false} ContainsExactly(s: string, sub: string)
    ensures Contains(s, sub) <==> exists a: string, b: string :: s == (a + sub) + b
  {
    if Contains(s, sub) {
      var k :| 0 <= k <= |s| && sub <= s[k..];
      assert s == (s[..k] + sub) + s[k..][|sub|..];
    }
    if a: string, b: string :| s == (a + sub) + b { assert s[|a|..] == sub + b; }
  }

  /** The zero value of some field constructs the struct `name`. */
  predicate Builds(s: Struct, name: string)
  {
    name != s.name && exists i :: 0 <= i < |s.fields| && s.fields[i].structValue && Contains(s.fields[i].zero,
        "new " + name + "(")
  }

  /** An identifier has neither spaces nor parentheses. */
  predicate Identifier(n: string)
  {
    ' ' !in n && '(' !in n && ')' !in n
  }

  /** The zero value of a struct constructs that struct, and no other whose name it holds. */
  lemma {:induction false} ZeroConstructs(n: string, m: string)
    requires Identifier(n) && Identifier(m)
    ensures Contains("new " + n + "()", "new " + m + "(") <==> n == m
  {
    var s, sub := "new " + n + "()", "new " + m + "(";
    if n == m { assert sub <= s[0..]; }
    if Contains(s, sub) {
      var k :| 0 <= k <= |s| && sub <= s[k..];
      assert s[k + 3] == sub[3] == ' ';
      assert forall i :: 4 <= i < 4 + |n| ==> s[i] == n[i - 4];
      var e := 4 + |m|;
      assert sub[e] == '(' && s[k + e] == s[k..][e] == '(';
      assert k == 0 && |m| == |n|;
      assert n == s[4..4 + |n|] && m == sub[4..4 + |m|];
    }
  }

  predicate DifferentNames(structs: seq<Struct>)
  {
    forall i, j :: 0 <= i < j < |structs| ==> structs[i].name != structs[j].name
  }

  /** Each struct of the path constructs the next. */
  ghost predicate Path(structs: seq<Struct>, path: seq<Struct>)
  {
    path != [] && (forall i :: 0 <= i < |path| ==> path[i] in structs) &&
    forall i :: 0 <= i < |path| - 1 ==> Builds(path[i], path[i + 1].name)
  }

  ghost predicate Reaches(structs: seq<Struct>, a: Struct, b: Struct)
  {
    exists path :: Path(structs, path) && path[0] == a && path[|path| - 1] == b
  }

  /** A struct stands behind every struct it constructs, unless that one leads back to it. */
  ghost predicate Ordered(structs: seq<Struct>, sorted: seq<Struct>)
  {
    forall i, d :: 0 <= i < |sorted| && d in structs && Builds(sorted[i], d.name) ==>
      d in sorted[..i] || Reaches(structs, d, sorted[i])
  }

  lemma {:induction false} ReachesSelf(structs: seq<Struct>, a: Struct)
    requires a in structs
    ensures Reaches(structs, a, a)
  {
    assert Path(structs, [a]);
  }

  lemma {:induction false} ReachesMore(structs: seq<Struct>, a: Struct, b: Struct, d: Struct)
    requires Reaches(structs, a, b) && d in structs && Builds(b, d.name)
    ensures Reaches(structs, a, d)
  {
    var path :| Path(structs, path) && path[0] == a && path[|path| - 1] == b;
    var more := path + [d];
    forall i | 0 <= i < |more| - 1 ensures Builds(more[i], more[i + 1].name) {
      if i < |path| - 1 { assert Builds(path[i], path[i + 1].name); }
    }
    assert Path(structs, more);
  }

  lemma {:induction false} ReachesFirst(structs: seq<Struct>, a: Struct, b: Struct, d: Struct)
    requires Reaches(structs, b, d) && a in structs && Builds(a, b.name)
    ensures Reaches(structs, a, d)
  {
    var path: seq<Struct> :| Path(structs, path) && path[0] == b && path[|path| - 1] == d;
    var more := [a] + path;
    forall i | 0 <= i < |more| - 1 ensures Builds(more[i], more[i + 1].name) {
      if i > 0 {
        var j := i - 1;
        assert Builds(path[j], path[j + 1].name);
      }
    }
    assert Path(structs, more);
  }

  /** The struct leads to all of these. */
  ghost predicate LeadsTo(structs: seq<Struct>, s: Struct, part: seq<Struct>)
  {
    forall x :: x in part ==> Reaches(structs, s, x)
  }

  /** One of the first `n` structs leads to each of these. */
  ghost predicate LedUpTo(structs: seq<Struct>, n: int, part: seq<Struct>)
  {
    forall x :: x in part ==> exists k :: 0 <= k < n && k < |structs| && Reaches(structs, structs[k], x)
  }

  /** In front of each of the first `n` structs stand only structs that it or one declared before it
      leads to. */
  ghost predicate InTurn(structs: seq<Struct>, n: int, sorted: seq<Struct>)
  {
    forall i, p :: 0 <= i < n && i < |structs| && 0 <= p < |sorted| && sorted[p] == structs[i] ==>
      LedUpTo(structs, i + 1, sorted[..p])
  }

  lemma {:induction false} LeadsMore(structs: seq<Struct>, s: Struct, d: Struct, a: seq<Struct>, b: seq<Struct>,
                                     c: seq<Struct>)
    requires a <= b <= c && s in structs && Builds(s, d.name)
    requires LeadsTo(structs, s, b[|a|..]) && LeadsTo(structs, d, c[|b|..])
    ensures LeadsTo(structs, s, c[|a|..])
  {
    hide Reaches, Builds;
    assert c[|a|..] == b[|a|..] + c[|b|..];
    forall x | x in c[|b|..] ensures Reaches(structs, s, x) { ReachesFirst(structs, s, d, x); }
  }

  lemma {:induction false} LeadsSelf(structs: seq<Struct>, s: Struct, a: seq<Struct>, b: seq<Struct>)
    requires a <= b && s in structs && LeadsTo(structs, s, b[|a|..])
    ensures LeadsTo(structs, s, (b + [s])[|a|..])
  {
    hide Reaches;
    assert (b + [s])[|a|..] == b[|a|..] + [s];
    ReachesSelf(structs, s);
  }

  lemma {:induction false} LeadsNone(structs: seq<Struct>, s: Struct)
    ensures LeadsTo(structs, s, [])
  {
  }

  lemma {:induction false} LedMore(structs: seq<Struct>, i: nat, a: seq<Struct>, b: seq<Struct>)
    requires i < |structs| && a <= b && LedUpTo(structs, i, a) && LeadsTo(structs, structs[i], b[|a|..])
    ensures LedUpTo(structs, i + 1, b)
  {
    hide Reaches;
    assert b == a + b[|a|..];
    forall x | x in b ensures exists k :: 0 <= k < i + 1 && k < |structs| && Reaches(structs, structs[k], x) {
      if x in b[|a|..] { assert Reaches(structs, structs[i], x); }
    }
  }

  lemma {:induction false} LedPart(structs: seq<Struct>, n: int, b: seq<Struct>, p: nat)
    requires LedUpTo(structs, n, b) && p <= |b|
    ensures LedUpTo(structs, n, b[..p])
  {
    hide Reaches;
    forall x | x in b[..p] ensures x in b { }
  }

  /** One more struct is sorted. */
  lemma {:induction false} InTurnMore(structs: seq<Struct>, i: nat, a: seq<Struct>, b: seq<Struct>)
    requires i < |structs| && a <= b && LeadsTo(structs, structs[i], b[|a|..])
    requires LedUpTo(structs, i, a) && InTurn(structs, i, a) && forall k :: 0 <= k < i ==> structs[k] in a
    requires forall x, y :: 0 <= x < y < |b| ==> b[x] != b[y]
    ensures LedUpTo(structs, i + 1, b) && InTurn(structs, i + 1, b)
  {
    hide Reaches, LedUpTo, LeadsTo;
    LedMore(structs, i, a, b);
    forall k, p | 0 <= k < i + 1 && 0 <= p < |b| && b[p] == structs[k] ensures LedUpTo(structs, k + 1, b[..p]) {
      if k < i {
        var q :| 0 <= q < |a| && a[q] == structs[k];
        assert b[q] == b[p];
        assert b[..p] == a[..p];
      } else {
        LedPart(structs, i + 1, b, p);
      }
    }
  }

  /** structZeroValueDeps: the dependencies, in any order of the names. */
  method StructZeroValueDeps(s: Struct, names: set<string>) returns (deps: seq<string>)
    ensures forall n :: n in deps <==> n in names && Builds(s, n)
  {
    deps := [];
    for i := 0 to |s.fields|
      invariant forall n ::
        n in deps <==>
          n in names && n != s.name &&
          exists k :: 0 <= k < i && s.fields[k].structValue && Contains(s.fields[k].zero, "new " + n + "(")
    {
      if s.fields[i].structValue {
        var more := FieldDeps(s, s.fields[i].zero, names);
        deps := deps + more;
      }
    }
  }

  method FieldDeps(s: Struct, zero: string, names: set<string>) returns (deps: seq<string>)
    ensures forall n :: n in deps <==> n in names && n != s.name && Contains(zero, "new " + n + "(")
  {
    deps := [];
    var rest := names;
    while rest != {}
      invariant rest <= names
      invariant forall n :: n in deps <==> n in names && n !in rest && n != s.name && Contains(zero, "new " + n + "(")
      decreases |rest|
    {
      var n :| n in rest;
      rest := rest - {n};
      if n != s.name && Contains(zero, "new " + n + "(") { deps := deps + [n]; }
    }
  }

  class StructSorter {
    const structs: seq<Struct>
    const byName: map<string, Struct>
    var visiting: set<string>
    var visited: set<string>
    var sorted: seq<Struct>

    constructor (structs: seq<Struct>, byName: map<string, Struct>)
      requires forall n :: n in byName ==> byName[n] in structs && byName[n].name == n
      requires forall s :: s in structs ==> s.name in byName && byName[s.name] == s
      ensures this.structs == structs && this.byName == byName && Valid()
      ensures visiting == {} && visited == {} && sorted == []
    {
      this.structs, this.byName := structs, byName;
      visiting, visited, sorted := {}, {}, [];
    }

    ghost predicate Valid()
      reads this
    {
      && (forall n :: n in byName ==> byName[n] in structs && byName[n].name == n)
      && (forall s :: s in structs ==> s.name in byName && byName[s.name] == s)
      && visiting <= byName.Keys && visited !! visiting
      && (forall s :: s in sorted <==> s in structs && s.name in visited)
      && visited <= byName.Keys
      && (forall i, j :: 0 <= i < j < |sorted| ==> sorted[i] != sorted[j])
      && Ordered(structs, sorted)
    }

    /** The structs being visited lead to `s`. */
    ghost predicate Above(s: Struct)
      reads this`visiting
    {
      forall n :: n in visiting && n in byName ==> Reaches(structs, byName[n], s)
    }

    method Visit(s: Struct)
      requires Valid() && s in structs && Above(s)
      modifies this
      ensures Valid() && visiting == old(visiting) && old(visited) <= visited
      ensures s.name in visited || s.name in visiting
      ensures old(sorted) <= sorted && LeadsTo(structs, s, sorted[|old(sorted)|..])
      decreases |byName.Keys - visiting|
    {
      hide Ordered, Builds, Reaches;
      if s.name in visited || s.name in visiting { return; }
      visiting := visiting + {s.name};
      ReachesSelf(structs, s);
      VisitDeps(s, old(visiting));
      LeadsSelf(structs, s, old(sorted), sorted);
      Close(s, old(visiting));
    }

    /** All dependencies are done. */
    method Close(s: Struct, ghost open: set<string>)
      requires Valid() && s in structs && s.name !in open && visiting == open + {s.name} && Above(s)
      requires forall n :: n in byName && Builds(s, n) ==> n in visited || n in visiting
      modifies this
      ensures Valid() && visiting == open && visited == old(visited) + {s.name} && sorted == old(sorted) + [s]
    {
      hide Ordered, Builds, Reaches;
      OrderedMore(s);
      MembersMore(s);
      visiting := visiting - {s.name};
      visited, sorted := visited + {s.name}, sorted + [s];
    }

    method VisitDeps(s: Struct, ghost open: set<string>)
      requires Valid() && s in structs && s.name !in open && visiting == open + {s.name} && Above(s)
      modifies this
      ensures Valid() && visiting == old(visiting) && old(visited) <= visited && Above(s)
      ensures forall n :: n in byName && Builds(s, n) ==> n in visited || n in visiting
      ensures old(sorted) <= sorted && LeadsTo(structs, s, sorted[|old(sorted)|..])
      decreases |byName.Keys - open|, 0
    {
      hide Ordered, Builds, Reaches, LeadsTo, Above, Valid;
      LeadsNone(structs, s);
      assert sorted[|old(sorted)|..] == [];
      var deps := StructZeroValueDeps(s, byName.Keys);
      for i := 0 to |deps|
        invariant Valid() && Above(s) && visiting == open + {s.name} && old(visited) <= visited
        invariant forall k :: 0 <= k < i ==> deps[k] in visited || deps[k] in visiting
        invariant old(sorted) <= sorted && LeadsTo(structs, s, sorted[|old(sorted)|..])
      {
        assert deps[i] in deps;
        NameThere(s, deps[i]);
        var d := byName[deps[i]];
        AboveDep(s, d);
        OneFewer(byName.Keys, open, s.name);
        ghost var before := sorted;
        Visit(d);
        LeadsMore(structs, s, d, old(sorted), before, sorted);
      }
    }

    lemma {:induction false} NameThere(s: Struct, n: string)
      requires Valid() && s in structs && n in byName
      ensures byName[n] in structs && byName[n].name == n && s.name in byName
    {
    }

    lemma {:induction false} AboveDep(s: Struct, d: Struct)
      requires Above(s) && d in structs && Builds(s, d.name)
      ensures Above(d)
    {
      forall n | n in visiting && n in byName
        ensures Reaches(structs, byName[n], d)
      {
        ReachesMore(structs, byName[n], s, d);
      }
    }

    lemma {:induction false} MembersMore(s: Struct)
      requires Valid() && s in structs && s.name !in visited
      ensures s !in sorted && forall x :: x in sorted + [s] <==> x in structs && x.name in visited + {s.name}
      ensures forall i, j :: 0 <= i < j < |sorted + [s]| ==> (sorted + [s])[i] != (sorted + [s])[j]
    {
      assert byName[s.name] == s;
      forall x ensures x in sorted + [s] <==> x in structs && x.name in visited + {s.name} {
        if x in structs && x.name == s.name { assert byName[x.name] == x; }
      }
    }

    lemma {:induction false} OrderedMore(s: Struct)
      requires Valid() && s in structs && s.name !in visited && Above(s)
      requires forall n :: n in byName && Builds(s, n) ==> n in visited || n in visiting + {s.name}
      ensures Ordered(structs, sorted + [s])
    {
      var more := sorted + [s];
      forall i, d | 0 <= i < |more| && d in structs && Builds(more[i], d.name)
        ensures d in more[..i] || Reaches(structs, d, more[i])
      {
        if i < |sorted| { assert more[..i] == sorted[..i]; } else { assert more[..i] == sorted; }
      }
    }
  }

  method StructsByName(structs: seq<Struct>) returns (byName: map<string, Struct>)
    requires DifferentNames(structs)
    ensures forall n :: n in byName ==> byName[n] in structs && byName[n].name == n
    ensures forall s :: s in structs ==> s.name in byName && byName[s.name] == s
  {
    byName := map[];
    for i := 0 to |structs|
      invariant forall n :: n in byName ==> byName[n] in structs && byName[n].name == n
      invariant forall k :: 0 <= k < i ==> structs[k].name in byName && byName[structs[k].name] == structs[k]
    {
      byName := byName[structs[i].name := structs[i]];
    }
  }

  /** sortedStructDecls: a permutation in which every struct stands behind the structs its zero
      value constructs, those on a cycle with it excepted. It keeps the order of the declarations
      as far as it can: in front of a struct stand only structs that it or one declared before it
      leads to. */
  method SortedStructDecls(structs: seq<Struct>) returns (sorted: seq<Struct>)
    requires DifferentNames(structs)
    ensures multiset(sorted) == multiset(structs)
    ensures Ordered(structs, sorted) && InTurn(structs, |structs|, sorted)
  {
    hide Ordered, Builds, Reaches, InTurn, LedUpTo, LeadsTo;
    NoneInTurn(structs);
    if |structs| < 2 {
      if |structs| == 0 { NoneOrdered(structs); }
      if |structs| == 1 { OneOrdered(structs); }
      return structs;
    }
    var byName := StructsByName(structs);
    var sorter := new StructSorter(structs, byName);
    for i := 0 to |structs|
      invariant sorter.Valid() && sorter.visiting == {} && fresh(sorter) && sorter.structs == structs
      invariant forall k :: 0 <= k < i ==> structs[k].name in sorter.visited
      invariant LedUpTo(structs, i, sorter.sorted) && InTurn(structs, i, sorter.sorted)
    {
      ghost var before := sorter.sorted;
      sorter.Visit(structs[i]);
      InTurnMore(structs, i, before, sorter.sorted);
    }
    sorted := sorter.sorted;
    SameElements(sorted, structs);
  }

  lemma {:induction false} NoneInTurn(structs: seq<Struct>)
    ensures LedUpTo(structs, 0, []) && InTurn(structs, 0, [])
    ensures |structs| < 2 ==> InTurn(structs, |structs|, structs)
  {
    hide Reaches;
  }

  lemma {:induction false} NoneOrdered(structs: seq<Struct>)
    requires structs == []
    ensures Ordered(structs, structs)
  {
    hide Builds, Reaches;
  }

  lemma {:induction false} OneOrdered(structs: seq<Struct>)
    requires |structs| == 1
    ensures Ordered(structs, structs)
  {
    hide Contains, Reaches;
    forall i, d | 0 <= i < |structs| && d in structs
      ensures !Builds(structs[i], d.name)
    {
      assert d == structs[0] && i == 0;
    }
  }

  /** Sequences without repetition and with the same members are permutations of each other. */
  lemma {:induction false} SameElements(a: seq<Struct>, b: seq<Struct>)
    requires forall i, j :: 0 <= i < j < |a| ==> a[i] != a[j]
    requires DifferentNames(b)
    requires forall x :: x in a <==> x in b
    ensures multiset(a) == multiset(b)
  {
    Once(a);
    Once(b);
    forall x ensures multiset(a)[x] == multiset(b)[x] {
      assert x in a <==> x in multiset(a);
      assert x in b <==> x in multiset(b);
    }
  }

  lemma {:induction false} Once(a: seq<Struct>)
    requires forall i, j :: 0 <= i < j < |a| ==> a[i] != a[j]
    ensures forall x :: multiset(a)[x] <= 1
  {
    if a != [] {
      var rest := a[..|a| - 1];
      Once(rest);
      assert a == rest + [a[|a| - 1]];
      assert a[|a| - 1] !in rest;
      assert multiset(rest)[a[|a| - 1]] == 0;
    }
  }
}
