/** Allocating aliases for the imports of a file (compiler/lowering.go). */
module ImportAliases {

  // ----- decimal numbers -----

  function Digit(n: nat): char
    requires n < 10
  {
    '0' + n as char
  }

  /** strconv.Itoa for naturals. */
  function Itoa(n: nat): (s: string)
    ensures |s| > 0
  {
    if n < 10 then [Digit(n)] else Itoa(n / 10) + [Digit(n % 10)]
  }

  function ValueOf(s: string): int
  {
    if s == "" then 0 else ValueOf(s[..|s| - 1]) * 10 + (s[|s| - 1] as int - '0' as int)
  }

  lemma {:induction false} ItoaValue(n: nat)
    ensures ValueOf(Itoa(n)) == n
  {
    var s := Itoa(n);
    if n >= 10 {
      ItoaValue(n / 10);
      assert s[..|s| - 1] == Itoa(n / 10);
    } else {
      assert s[..0] == "";
    }
  }

  /** The nth name to try. */
  function Candidate(base: string, n: nat): string
  {
    base + Itoa(n)
  }

  /** The candidates for an alias are all different. */
  lemma {:induction false} CandidatesDiffer(base: string, m: nat, n: nat)
    requires Candidate(base, m) == Candidate(base, n)
    ensures m == n
  {
    assert Itoa(m) == Candidate(base, m)[|base|..] && Itoa(n) == Candidate(base, n)[|base|..];
    ItoaValue(m);
    ItoaValue(n);
  }

  // ----- the table of a file -----

  datatype Import = Import(alias: string, package: string, typeOnly: bool)

  /** What asks for an import: an import declaration, or code that refers to a package. `name`
      is the identifier it would like. */
  datatype Request = Declared(name: string, package: string) | Generated(name: string, package: string, typeOnly: bool)

  ghost predicate Listed(imports: seq<Import>, alias: string)
  {
    exists i :: 0 <= i < |imports| && imports[i].alias == alias
  }

  lemma {:induction false} ListedMore(imports: seq<Import>, x: Import)
    ensures forall a :: Listed(imports + [x], a) <==> Listed(imports, a) || a == x.alias
  {
    forall a ensures Listed(imports + [x], a) <==> Listed(imports, a) || a == x.alias {
      assert (imports + [x])[|imports|] == x;
      if Listed(imports, a) {
        var i :| 0 <= i < |imports| && imports[i].alias == a;
        assert (imports + [x])[i].alias == a;
      }
    }
  }

  ghost predicate Known(imports: seq<Import>, package: string)
  {
    exists i :: 0 <= i < |imports| && imports[i].package == package
  }

  /** An alias may stand for a package when it is not reserved and stands for no other. */
  ghost predicate Usable(reserved: set<string>, imports: seq<Import>, alias: string, package: string)
  {
    alias !in reserved && forall i :: 0 <= i < |imports| && imports[i].alias == alias ==> imports[i].package == package
  }

  ghost predicate FirstNumbered(reserved: set<string>, imports: seq<Import>, name: string, package: string,
                                alias: string, n: nat)
  {
    && n >= 2 && alias == Candidate(name, n)
    && forall k :: 2 <= k < n ==> !Usable(reserved, imports, Candidate(name, k), package)
  }

  /** The alias for a package: the name itself, or the name with the first number from 2 on
      that makes it usable. */
  ghost predicate Chosen(reserved: set<string>, imports: seq<Import>, name: string, package: string, alias: string)
  {
    && Usable(reserved, imports, alias, package)
    && (alias == name || (!Usable(reserved, imports, name, package)
                          && exists n :: FirstNumbered(reserved, imports, name, package, alias, n)))
  }

  ghost predicate AddsAs(reserved: set<string>, before: seq<Import>, r: Request, alias: string, after: seq<Import>)
  {
    && Chosen(reserved, before, r.name, r.package, alias)
    && after == if Listed(before, alias) then before
                else before + [Import(alias, r.package, r.Generated? && r.typeOnly)]
  }

  /** What a request does to the imports of the file. Generated code takes any import of its
      package; a declaration asks for its own name. */
  ghost predicate Adds(reserved: set<string>, before: seq<Import>, r: Request, after: seq<Import>)
  {
    if r.Generated? && Known(before, r.package) then after == before
    else exists alias :: AddsAs(reserved, before, r, alias, after)
  }

  /** The imports that requests lead to, one after the other. */
  ghost predicate Made(reserved: set<string>, requests: seq<Request>, imports: seq<Import>)
  {
    if requests == [] then imports == []
    else
      var front, last := requests[..|requests| - 1], requests[|requests| - 1];
      exists before :: Made(reserved, front, before) && Adds(reserved, before, last, imports)
  }

  /** The newest alias of every package. */
  function NewestAliases(imports: seq<Import>): map<string, string>
  {
    if imports == [] then map[]
    else
      var x := imports[|imports| - 1];
      NewestAliases(imports[..|imports| - 1])[x.package := x.alias]
  }

  /** Aliases and packages lead to each other, and what was recorded is remembered. */
  ghost predicate Consistent(reserved: set<string>, aliases: map<string, string>, paths: map<string, string>,
                             seen: set<(string, string)>)
  {
    && (forall a :: a in aliases ==> a !in reserved && (a, aliases[a]) in seen && aliases[a] in paths)
    && (forall p :: p in paths ==> paths[p] in aliases && aliases[paths[p]] == p)
    && (forall a, p :: (a, p) in seen ==> a in aliases && aliases[a] == p)
  }

  /** The import list holds every alias once, with its package. */
  ghost predicate ListOk(imports: seq<Import>, aliases: map<string, string>)
  {
    && (forall i :: 0 <= i < |imports| ==>
        imports[i].alias in aliases && aliases[imports[i].alias] == imports[i].package)
    && (forall a :: a in aliases ==> Listed(imports, a))
    && (forall i, j :: 0 <= i < j < |imports| ==> imports[i].alias != imports[j].alias)
  }

  lemma {:induction false} ConsistentMore(reserved: set<string>, aliases: map<string, string>,
                                          paths: map<string, string>, seen: set<(string, string)>, alias: string,
                                          package: string)
    requires Consistent(reserved, aliases, paths, seen) && alias !in reserved && alias !in aliases
    ensures Consistent(reserved, aliases[alias := package], paths[package := alias], seen + {(alias, package)})
  {
  }

  lemma {:induction false} ListMore(imports: seq<Import>, aliases: map<string, string>, x: Import)
    requires ListOk(imports, aliases) && x.alias !in aliases
    ensures ListOk(imports + [x], aliases[x.alias := x.package])
  {
    hide Listed;
    ListedMore(imports, x);
  }

  class ImportTable {
    const reserved: set<string>
    var importAliases: map<string, string>
    var importPaths: map<string, string>
    var seenImport: set<(string, string)>
    var imports: seq<Import>

    constructor (reserved: set<string>)
      ensures this.reserved == reserved && Valid() && imports == [] && importAliases == map[] && importPaths == map[]
    {
      this.reserved := reserved;
      importAliases, importPaths, seenImport, imports := map[], map[], {}, [];
    }

    ghost predicate Valid()
      reads this
    {
      && Consistent(reserved, importAliases, importPaths, seenImport) && ListOk(imports, importAliases)
      && importPaths == NewestAliases(imports)
    }

    predicate Free(alias: string, package: string)
      reads this
    {
      alias !in reserved && (alias !in importAliases || importAliases[alias] == package)
    }

    lemma {:induction false} FreeIsUsable(alias: string, package: string)
      requires Valid()
      ensures Free(alias, package) <==> Usable(reserved, imports, alias, package)
    {
      if alias in importAliases {
        var i :| 0 <= i < |imports| && imports[i].alias == alias;
      }
    }

    /** uniqueImportAlias: the search ends because only finitely many names are taken. */
    method UniqueImportAlias(name: string, package: string) returns (alias: string)
      requires Valid()
      ensures Free(alias, package) && Chosen(reserved, imports, name, package, alias)
    {
      hide Candidate, Tried, Valid, Usable;
      FreeIsUsable(name, package);
      if name !in reserved && (name !in importAliases || importAliases[name] == package) { return name; }
      var n := 2;
      ghost var untried := reserved + importAliases.Keys;
      while true
        invariant n >= 2
        invariant forall k :: 2 <= k < n ==> !Usable(reserved, imports, Candidate(name, k), package)
        invariant forall c :: c in reserved || c in importAliases ==> c in untried || Tried(name, n, c)
        decreases |untried|
      {
        var candidate := Candidate(name, n);
        FreeIsUsable(candidate, package);
        if candidate !in reserved && (candidate !in importAliases || importAliases[candidate] == package) {
          assert FirstNumbered(reserved, imports, name, package, candidate, n);
          return candidate;
        }
        NotTried(name, n);
        TriedMore(name, n);
        untried := untried - {candidate};
        n := n + 1;
      }
    }

    lemma {:induction false} AlreadyThere(alias: string, package: string)
      requires Valid() && Free(alias, package)
      ensures (alias, package) in seenImport <==> Listed(imports, alias)
      ensures (alias, package) !in seenImport ==> alias !in importAliases && alias !in reserved
      ensures (alias, package) in seenImport ==> package in importPaths
    {
    }

    /** Records an import under a usable alias, unless the file already has it. */
    method Record(alias: string, package: string, typeOnly: bool)
      requires Valid() && Free(alias, package)
      modifies this
      ensures Valid() && package in importPaths && old(importPaths).Keys <= importPaths.Keys
      ensures imports == if Listed(old(imports), alias) then old(imports)
                         else old(imports) + [Import(alias, package, typeOnly)]
    {
      hide Consistent, ListOk, Listed;
      AlreadyThere(alias, package);
      if (alias, package) in seenImport { return; }
      ConsistentMore(reserved, importAliases, importPaths, seenImport, alias, package);
      ListMore(imports, importAliases, Import(alias, package, typeOnly));
      seenImport := seenImport + {(alias, package)};
      importAliases := importAliases[alias := package];
      importPaths := importPaths[package := alias];
      ghost var before := imports;
      imports := imports + [Import(alias, package, typeOnly)];
      assert imports[..|imports| - 1] == before;
    }

    /** An import declaration, or addGeneratedImportPath. */
    method Add(r: Request)
      requires Valid()
      modifies this
      ensures Valid() && Adds(reserved, old(imports), r, imports)
      ensures r.package in importPaths && old(importPaths).Keys <= importPaths.Keys
    {
      hide Valid, Chosen, Listed;
      InPaths(r.package);
      if r.Generated? && r.package in importPaths { return; }
      var alias := UniqueImportAlias(r.name, r.package);
      Record(alias, r.package, r.Generated? && r.typeOnly);
      assert AddsAs(reserved, old(imports), r, alias, imports);
    }

    lemma {:induction false} InPaths(package: string)
      requires Valid()
      ensures package in importPaths <==> Known(imports, package)
    {
      KnownExactly(imports, package);
    }
  }

  lemma {:induction false} KnownExactly(imports: seq<Import>, package: string)
    ensures package in NewestAliases(imports) <==> Known(imports, package)
    ensures package in NewestAliases(imports) ==>
      Import(NewestAliases(imports)[package], package, true) in imports
      || Import(NewestAliases(imports)[package], package, false) in imports
  {
    if imports != [] {
      var n := |imports| - 1;
      KnownExactly(imports[..n], package);
      assert imports == imports[..n] + [imports[n]];
      if package != imports[n].package && Known(imports, package) {
        var i :| 0 <= i < |imports| && imports[i].package == package;
        assert imports[..n][i].package == package;
      }
    }
  }

  ghost predicate Tried(name: string, n: nat, c: string)
  {
    exists k :: 2 <= k < n && c == Candidate(name, k)
  }

  lemma {:induction false} TriedMore(name: string, n: nat)
    requires n >= 2
    ensures forall c :: Tried(name, n, c) || c == Candidate(name, n) ==> Tried(name, n + 1, c)
  {
    hide Candidate;
    forall c | Tried(name, n, c) || c == Candidate(name, n) ensures Tried(name, n + 1, c) {
      if c != Candidate(name, n) { var k :| 2 <= k < n && c == Candidate(name, k); }
    }
  }

  lemma {:induction false} NotTried(name: string, n: nat)
    ensures !Tried(name, n, Candidate(name, n))
  {
    hide Candidate;
    if k :| 2 <= k < n && Candidate(name, n) == Candidate(name, k) { CandidatesDiffer(name, n, k); }
  }

  /** After any requests in any order: the imports they lead to, where no alias names two
      packages or is a reserved name, and the newest alias of every requested package. */
  method ImportsOf(reserved: set<string>, requests: seq<Request>)
    returns (imports: seq<Import>, paths: map<string, string>)
    ensures Made(reserved, requests, imports) && paths == NewestAliases(imports)
    ensures forall i, j :: 0 <= i < j < |imports| ==> imports[i].alias != imports[j].alias
    ensures forall i :: 0 <= i < |imports| ==> imports[i].alias !in reserved && imports[i].package in paths
    ensures forall r :: r in requests ==> r.package in paths
    ensures forall p :: p in paths ==>
      exists i :: 0 <= i < |imports| && imports[i].alias == paths[p] && imports[i].package == p
  {
    hide Itoa, Adds, Made, NewestAliases;
    MadeNone(reserved);
    var table := new ImportTable(reserved);
    for k := 0 to |requests|
      invariant table.Valid() && fresh(table) && table.reserved == reserved
      invariant Made(reserved, requests[..k], table.imports)
      invariant forall i :: 0 <= i < k ==> requests[i].package in table.importPaths
    {
      ghost var before := table.imports;
      table.Add(requests[k]);
      MadeMore(reserved, requests[..k], requests[k], before, table.imports);
      assert requests[..k + 1] == requests[..k] + [requests[k]];
    }
    assert requests[..|requests|] == requests;
    imports, paths := table.imports, table.importPaths;
    forall p | p in paths
      ensures exists i :: 0 <= i < |imports| && imports[i].alias == paths[p] && imports[i].package == p
    {
      assert Listed(imports, paths[p]);
    }
  }

  lemma {:induction false} MadeNone(reserved: set<string>)
    ensures Made(reserved, [], [])
  {
  }

  lemma {:induction false} MadeMore(reserved: set<string>, requests: seq<Request>, r: Request, before: seq<Import>,
                                    after: seq<Import>)
    requires Made(reserved, requests, before) && Adds(reserved, before, r, after)
    ensures Made(reserved, requests + [r], after)
  {
    hide Adds;
    assert (requests + [r])[..|requests|] == requests;
  }

  // ----- which imports are made, and which of them are type-only -----

  /** The kth request adds x behind the imports that the requests in front of it lead to. */
  ghost predicate AddedBy(reserved: set<string>, requests: seq<Request>, k: int, before: seq<Import>, x: Import)
  {
    && 0 <= k < |requests| && Made(reserved, requests[..k], before)
    && Adds(reserved, before, requests[k], before + [x])
  }

  lemma {:induction false} AddsMore(reserved: set<string>, before: seq<Import>, r: Request, after: seq<Import>)
    requires Adds(reserved, before, r, after)
    ensures after == before || (after == before + [after[|before|]] && |after| == |before| + 1)
  {
  }

  /** The requests determine the imports. */
  lemma {:induction false} MadeOnce(reserved: set<string>, requests: seq<Request>, a: seq<Import>, b: seq<Import>)
    requires Made(reserved, requests, a) && Made(reserved, requests, b)
    ensures a == b
  {
    hide Chosen, Listed, Known, Candidate;
    if requests != [] {
      var n := |requests| - 1;
      var c :| Made(reserved, requests[..n], c) && Adds(reserved, c, requests[n], a);
      var d :| Made(reserved, requests[..n], d) && Adds(reserved, d, requests[n], b);
      MadeOnce(reserved, requests[..n], c, d);
      if !(requests[n].Generated? && Known(c, requests[n].package)) {
        var x :| AddsAs(reserved, c, requests[n], x, a);
        var y :| AddsAs(reserved, c, requests[n], y, b);
        ChosenOnce(reserved, c, requests[n].name, requests[n].package, x, y);
      }
    }
  }

  lemma {:induction false} ChosenOnce(reserved: set<string>, imports: seq<Import>, name: string, package: string,
                                      a: string, b: string)
    requires Chosen(reserved, imports, name, package, a) && Chosen(reserved, imports, name, package, b)
    ensures a == b
  {
    hide Usable, Candidate;
    if !Usable(reserved, imports, name, package) {
      var m :| FirstNumbered(reserved, imports, name, package, a, m);
      var n :| FirstNumbered(reserved, imports, name, package, b, n);
      assert m >= n && n >= m;
    }
  }

  lemma {:induction false} MadeFront(reserved: set<string>, requests: seq<Request>, imports: seq<Import>, k: nat)
    returns (before: seq<Import>)
    requires Made(reserved, requests, imports) && k <= |requests|
    ensures Made(reserved, requests[..k], before) && before <= imports
  {
    hide Adds;
    if k == |requests| {
      assert requests[..k] == requests;
      return imports;
    }
    var n := |requests| - 1;
    var last :| Made(reserved, requests[..n], last) && Adds(reserved, last, requests[n], imports);
    AddsMore(reserved, last, requests[n], imports);
    before := MadeFront(reserved, requests[..n], last, k);
    assert requests[..n][..k] == requests[..k];
  }

  /** Every import was added by one of the requests, for its package, and is type-only if and
      only if generated code asked for it that needs nothing but types. */
  lemma {:induction false} TypeOnlyExactly(reserved: set<string>, requests: seq<Request>, imports: seq<Import>,
                                           i: nat)
    returns (k: nat)
    requires Made(reserved, requests, imports) && i < |imports|
    ensures AddedBy(reserved, requests, k, imports[..i], imports[i]) && imports[i].package == requests[k].package
    ensures imports[i].typeOnly <==> requests[k].Generated? && requests[k].typeOnly
  {
    hide Chosen, Listed, Known;
    var n := |requests| - 1;
    var last :| Made(reserved, requests[..n], last) && Adds(reserved, last, requests[n], imports);
    AddsMore(reserved, last, requests[n], imports);
    if i < |last| {
      k := TypeOnlyExactly(reserved, requests[..n], last, i);
      assert requests[..n][..k] == requests[..k] && last[..i] == imports[..i];
    } else {
      assert imports[..i] == last;
      k := n;
    }
  }

  /** A declared package has an import, and a type-only one just when a request of generated
      code in front of the declaration put that alias there. */
  lemma {:induction false} DeclaredImported(reserved: set<string>, requests: seq<Request>, imports: seq<Import>,
                                            k: nat)
    returns (i: nat)
    requires Made(reserved, requests, imports) && k < |requests| && requests[k].Declared?
    ensures i < |imports| && imports[i].package == requests[k].package
    ensures exists before :: Made(reserved, requests[..k], before)
              && Chosen(reserved, before, requests[k].name, requests[k].package, imports[i].alias)
    ensures imports[i].typeOnly ==>
      exists j :: 0 <= j < k && requests[j].Generated? && requests[j].typeOnly
                  && AddedBy(reserved, requests, j, imports[..i], imports[i])
  {
    hide Chosen, Known, Made;
    var before := MadeFront(reserved, requests, imports, k);
    var after := MadeFront(reserved, requests, imports, k + 1);
    assert requests[..k + 1][..k] == requests[..k];
    assert Adds(reserved, before, requests[k], after) by { MadeStep(reserved, requests[..k + 1], before, after); }
    var alias :| AddsAs(reserved, before, requests[k], alias, after);
    if Listed(before, alias) {
      i :| 0 <= i < |before| && before[i].alias == alias;
      ChosenUsable(reserved, before, requests[k], alias);
      var j := TypeOnlyExactly(reserved, requests[..k], before, i);
      assert requests[..k][..j] == requests[..j] && before[..i] == imports[..i];
    } else {
      i := |before|;
    }
    assert imports[i].alias == alias;
  }

  lemma {:induction false} ChosenUsable(reserved: set<string>, imports: seq<Import>, r: Request, alias: string)
    requires Chosen(reserved, imports, r.name, r.package, alias)
    ensures Usable(reserved, imports, alias, r.package)
  {
  }

  lemma {:induction false} MadeStep(reserved: set<string>, requests: seq<Request>, before: seq<Import>,
                                    after: seq<Import>)
    requires requests != [] && Made(reserved, requests, after)
    requires Made(reserved, requests[..|requests| - 1], before)
    ensures Adds(reserved, before, requests[|requests| - 1], after)
  {
    hide Adds;
    var n := |requests| - 1;
    var c :| Made(reserved, requests[..n], c) && Adds(reserved, c, requests[n], after);
    MadeOnce(reserved, requests[..n], c, before);
  }
}
