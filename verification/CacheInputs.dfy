/** What a compile reads, the keys and files that follow from it, and exactly when the key of a
    package stands for its files (compiler/compiler-cache.go, compiler/service.go). */
module CacheInputs {
  import opened CacheKeys
  import opened CacheRuns
  import opened CacheReplay

  /** An override package: its files, with their paths below the root of the overrides. */
  datatype Override = Override(package: string, files: seq<(string, Data)>)

  /** What a compile starts from and finds: the fields of schema, compiler and request, the graph
      with the records of its packages, those that are generated, what is async in the whole
      program, whether a requested package leads to `reflect`, and the overrides to copy. */
  datatype Input = Input(identity: seq<Field>, graph: Graph, rank: string -> nat, generated: set<string>,
                         async: set<string>, reflects: bool, plan: seq<Override>)

  /** The import closure of a package. */
  ghost function ClosureOf(g: Graph, p: string): Graph
  {
    map q | q in g && Reaches(g, p, q) :: g[q]
  }

  /** What the emission of a package can look at: the request, the sources of the import closure,
      which of the functions and methods named there are async, and whether type information
      that only `reflect` needs is left out. */
  datatype View = View(identity: seq<Field>, package: string, closure: Graph, async: set<string>, reflects: bool)

  /** Lowering and emission of one package: the names that the sources of a closure can use, the
      paths of the files, and what is written to them. */
  datatype Emitter = Emitter(names: Graph -> set<string>, paths: (seq<Field>, string, Graph) -> set<string>,
                             text: (View, string) -> Data)

  ghost function PathsOf(e: Emitter, x: Input, p: string): set<string>
  {
    e.paths(x.identity, p, ClosureOf(x.graph, p))
  }

  ghost function ViewOf(e: Emitter, x: Input, p: string): View
  {
    View(x.identity, p, ClosureOf(x.graph, p), x.async * e.names(ClosureOf(x.graph, p)), x.reflects)
  }

  /** A package is emitted into its own directory, with an index. */
  ghost predicate OwnPaths(e: Emitter)
  {
    forall identity, p, closure ::
      e.paths(identity, p, closure) != {} && forall path :: path in e.paths(identity, p, closure) ==> OwnPath(p, path)
  }

  /** A package records its own path. */
  ghost predicate PathRecorded(g: Graph)
  {
    forall p :: p in g ==>
      Field("path", p) in g[p].recorded && forall f :: f in g[p].recorded && f.key == "path" ==> f.value == p
  }

  ghost predicate Proper(x: Input)
  {
    && Acyclic(x.graph, x.rank) && Recorded(x.graph) && PathRecorded(x.graph) && x.generated <= x.graph.Keys
    && PlainKeys(x.identity) && forall f :: f in x.identity ==> f.key != "kind"
  }

  // ----- the compile of an input -----

  ghost function KeyOf(w: World, x: Input, p: string): string
    requires Proper(x)
  {
    GeneratedKey(w, x.identity, NodeDigest(w, x.graph, x.rank, p))
  }

  ghost function AllPaths(e: Emitter, x: Input): set<string>
  {
    set p, path | p in x.generated && path in PathsOf(e, x, p) :: path
  }

  ghost function OwnerOf(e: Emitter, x: Input, path: string): (p: string)
    requires path in AllPaths(e, x)
    ensures p in x.generated && path in PathsOf(e, x, p)
  {
    var p :| p in x.generated && path in PathsOf(e, x, p);
    p
  }

  /** EmitToMemory. */
  ghost function Emitted(e: Emitter, x: Input): map<string, Data>
  {
    map path | path in AllPaths(e, x) :: e.text(ViewOf(e, x, OwnerOf(e, x, path)), path)
  }

  function Digests(hash: string -> string, files: seq<(string, Data)>): (r: seq<(string, string)>)
    ensures |r| == |files| && forall i :: 0 <= i < |files| ==> r[i] == (files[i].0, hash(files[i].1))
  {
    if files == [] then [] else [(files[0].0, hash(files[0].1))] + Digests(hash, files[1..])
  }

  function Artifacts(files: seq<(string, Data)>): (r: seq<(string, Data)>)
    ensures |r| == |files| && forall i :: 0 <= i < |files| ==> r[i] == ("@goscript/" + files[i].0, files[i].1)
  {
    if files == [] then [] else [("@goscript/" + files[0].0, files[0].1)] + Artifacts(files[1..])
  }

  ghost function CopyOf(w: World, x: Input, o: Override): Copy
  {
    Copy(o.package, CopiedKey(w, x.identity, o.package, Digests(w.hash, o.files)), Artifacts(o.files))
  }

  ghost function BuildOf(w: World, e: Emitter, x: Input): Build
    requires Proper(x)
  {
    Build(Emitted(e, x), map p | p in x.generated :: KeyOf(w, x, p),
          seq(|x.plan|, i requires 0 <= i < |x.plan| => CopyOf(w, x, x.plan[i])))
  }

  ghost predicate AllProper(inputs: seq<Input>)
  {
    forall n :: 0 <= n < |inputs| ==> Proper(inputs[n])
  }

  ghost function BuildsOf(w: World, e: Emitter, inputs: seq<Input>): (r: seq<Build>)
    requires AllProper(inputs)
    ensures |r| == |inputs| && forall n :: 0 <= n < |inputs| ==> r[n] == BuildOf(w, e, inputs[n])
  {
    seq(|inputs|, n requires 0 <= n < |inputs| => BuildOf(w, e, inputs[n]))
  }

  // ----- what keys say -----

  lemma {:induction false} SameClosureOf(g: Graph, h: Graph, p: string)
    ensures SameClosure(g, h, p) <==> ClosureOf(g, p) == ClosureOf(h, p)
  {
    forall q ensures (Reaches(g, p, q) ==> q in g) && (Reaches(h, p, q) ==> q in h) { }
    if SameClosure(g, h, p) {
      forall q ensures q in ClosureOf(g, p) <==> q in ClosureOf(h, p) { }
    }
    if ClosureOf(g, p) == ClosureOf(h, p) {
      forall q ensures (Reaches(g, p, q) <==> q in ClosureOf(g, p)) && (Reaches(h, p, q) <==> q in ClosureOf(h, p)) { }
      forall q | Reaches(g, p, q) ensures g[q] == h[q] { assert ClosureOf(g, p)[q] == ClosureOf(h, p)[q]; }
    }
  }

  /** What the key of a package covers is the same in two compiles. */
  ghost predicate SameSources(a: Input, b: Input, p: string)
  {
    a.identity == b.identity && ClosureOf(a.graph, p) == ClosureOf(b.graph, p)
  }

  /** Two packages have the same key if and only if they are the same package with the same request
      and the same import closure. */
  lemma {:induction false} KeysExactly(w: World, a: Input, b: Input, p: string, q: string)
    requires CollisionFree(w) && Proper(a) && Proper(b) && p in a.graph && q in b.graph
    ensures KeyOf(w, a, p) == KeyOf(w, b, q) <==> p == q && SameSources(a, b, p)
  {
    hide CollisionFree, Acyclic, Recorded, NodeDigest, GeneratedKey, ClosureOf, PlainKeys;
    if KeyOf(w, a, p) == KeyOf(w, b, q) {
      KeyParts(w, a.identity, b.identity, NodeDigest(w, a.graph, a.rank, p), NodeDigest(w, b.graph, b.rank, q));
      SameDigestSameNode(w, a.graph, a.rank, b.graph, b.rank, p, q);
      assert Field("path", p) in b.graph[q].recorded;
    }
    if p == q {
      GeneratedKeyExact(w, a.identity, b.identity, a.graph, a.rank, b.graph, b.rank, p);
      SameClosureOf(a.graph, b.graph, p);
    }
  }

  /** An own path belongs to one package. */
  lemma {:induction false} OneOwner(p: string, q: string, path: string)
    requires OwnPath(p, path) && OwnPath(q, path)
    ensures p == q
  {
    assert Prefix(p) <= path by { var name :| path == Prefix(p) + name && '/' !in name; }
    assert Prefix(q) <= path by { var name :| path == Prefix(q) + name && '/' !in name; }
    CoversOwn(q, p, path);
    CoversOwn(p, q, path);
  }

  lemma {:induction false} EmittedOwn(e: Emitter, x: Input, p: string, path: string)
    requires OwnPaths(e) && p in x.generated && OwnPath(p, path)
    ensures path in Emitted(e, x) <==> path in PathsOf(e, x, p)
    ensures path in Emitted(e, x) ==> Emitted(e, x)[path] == e.text(ViewOf(e, x, p), path)
  {
    hide ViewOf, OwnPath;
    if path in AllPaths(e, x) { OneOwner(OwnerOf(e, x, path), p, path); }
  }

  /** The two compiles write the same to the files of the package. */
  ghost predicate SameText(e: Emitter, a: Input, b: Input, p: string)
  {
    forall path :: path in PathsOf(e, b, p) ==> e.text(ViewOf(e, a, p), path) == e.text(ViewOf(e, b, p), path)
  }

  lemma {:induction false} SameOwnExactly(w: World, e: Emitter, a: Input, b: Input, p: string)
    requires Proper(a) && Proper(b) && OwnPaths(e) && p in a.generated && p in b.generated && SameSources(a, b, p)
    ensures SameOwnFiles(BuildOf(w, e, a), BuildOf(w, e, b), p) <==> SameText(e, a, b, p)
  {
    hide ClosureOf, OwnPath, ViewOf, Emitted, KeyOf, Proper;
    assert PathsOf(e, a, p) == PathsOf(e, b, p);
    forall path | OwnPath(p, path)
      ensures path in Emitted(e, a) <==> path in PathsOf(e, a, p)
      ensures path in Emitted(e, b) <==> path in PathsOf(e, b, p)
      ensures path in Emitted(e, a) ==> Emitted(e, a)[path] == e.text(ViewOf(e, a, p), path)
      ensures path in Emitted(e, b) ==> Emitted(e, b)[path] == e.text(ViewOf(e, b, p), path)
    {
      EmittedOwn(e, a, p, path);
      EmittedOwn(e, b, p, path);
    }
  }

  lemma {:induction false} BuildKeys(w: World, e: Emitter, x: Input, p: string)
    requires Proper(x)
    ensures p in BuildOf(w, e, x).keys <==> p in x.generated
    ensures p in x.generated ==> BuildOf(w, e, x).keys[p] == KeyOf(w, x, p)
  {
  }

  lemma {:induction false} PairExactly(w: World, e: Emitter, a: Input, x: Input, p: string, q: string)
    requires CollisionFree(w) && OwnPaths(e) && Proper(a) && Proper(x) && p in a.generated && q in x.generated
    ensures p in BuildOf(w, e, a).keys && q in BuildOf(w, e, x).keys
    ensures (BuildOf(w, e, a).keys[p] == BuildOf(w, e, x).keys[q] ==>
             p == q && SameOwnFiles(BuildOf(w, e, a), BuildOf(w, e, x), p)) <==>
      (p == q && SameSources(a, x, p) ==> SameText(e, a, x, p))
  {
    hide CollisionFree, OwnPaths, SameSources, SameText, SameOwnFiles, KeyOf, BuildOf, Acyclic, Recorded, PathRecorded,
         PlainKeys;
    BuildKeys(w, e, a, p);
    BuildKeys(w, e, x, q);
    KeysExactly(w, a, x, p, q);
    if p == q && SameSources(a, x, p) { SameOwnExactly(w, e, a, x, p); }
  }

  /** Keys determine what is emitted if and only if no package with unchanged sources is written
      differently. */
  lemma {:induction false} DetermineExactly(w: World, e: Emitter, inputs: seq<Input>, x: Input)
    requires CollisionFree(w) && OwnPaths(e) && AllProper(inputs) && Proper(x)
    ensures KeysDetermine(BuildsOf(w, e, inputs), BuildOf(w, e, x)) <==>
      forall n, p ::
        0 <= n < |inputs| && p in inputs[n].generated && p in x.generated && SameSources(inputs[n], x, p) ==>
          SameText(e, inputs[n], x, p)
  {
    hide CollisionFree, OwnPaths, SameSources, SameText, SameOwnFiles, BuildOf, Proper;
    var builds, b := BuildsOf(w, e, inputs), BuildOf(w, e, x);
    forall p ensures p in b.keys <==> p in x.generated { BuildKeys(w, e, x, p); }
    forall n, p | 0 <= n < |inputs|
      ensures p in builds[n].keys <==> p in inputs[n].generated
    {
      BuildKeys(w, e, inputs[n], p);
    }
    forall n, p, q | 0 <= n < |inputs| && p in inputs[n].generated && q in x.generated
      ensures (builds[n].keys[p] == b.keys[q] ==> p == q && SameOwnFiles(builds[n], b, p)) <==>
        (p == q && SameSources(inputs[n], x, p) ==> SameText(e, inputs[n], x, p))
    {
      PairExactly(w, e, inputs[n], x, p, q);
    }
  }

  /** The same of what is copied needs no condition: the key covers the files. */
  lemma {:induction false} CopiesDetermined(w: World, e: Emitter, inputs: seq<Input>, x: Input)
    requires CollisionFree(w) && AllProper(inputs) && Proper(x)
    ensures CopyKeysDetermine(BuildsOf(w, e, inputs), BuildOf(w, e, x))
  {
    hide CollisionFree, Emitted, KeyOf, CopiedKey, Acyclic, Recorded, PathRecorded;
    var builds, b := BuildsOf(w, e, inputs), BuildOf(w, e, x);
    forall n, i, j | 0 <= n < |builds| && 0 <= i < |builds[n].plan| && 0 <= j < |b.plan| &&
      builds[n].plan[i].key == b.plan[j].key
      ensures builds[n].plan[i].files == b.plan[j].files
    {
      var o, u := inputs[n].plan[i], x.plan[j];
      CopiedKeySound(w, inputs[n].identity, x.identity, o.package, u.package, Digests(w.hash, o.files),
                     Digests(w.hash, u.files));
      SameDigests(w, o.files, u.files);
    }
  }

  lemma {:induction false} SameDigests(w: World, a: seq<(string, Data)>, b: seq<(string, Data)>)
    requires CollisionFree(w) && Digests(w.hash, a) == Digests(w.hash, b)
    ensures a == b
  {
    assert |a| == |Digests(w.hash, a)| == |b|;
    forall i | 0 <= i < |a| ensures a[i] == b[i] {
      assert Digests(w.hash, a)[i] == (a[i].0, w.hash(a[i].1)) == (b[i].0, w.hash(b[i].1));
    }
  }

  // ----- what keys do not say -----

  /** The package saw the same async functions and the same `reflect` in both compiles. */
  ghost predicate SameFacts(e: Emitter, a: Input, b: Input, p: string)
  {
    a.reflects == b.reflects && a.async * e.names(ClosureOf(a.graph, p)) == b.async * e.names(ClosureOf(b.graph, p))
  }

  /** Packages whose sources did not change see the same facts about the whole program. */
  ghost predicate Settled(e: Emitter, inputs: seq<Input>, x: Input)
  {
    forall n, p ::
      0 <= n < |inputs| && p in inputs[n].generated && p in x.generated && SameSources(inputs[n], x, p) ==>
        SameFacts(e, inputs[n], x, p)
  }

  lemma {:induction false} SettledDetermines(w: World, e: Emitter, inputs: seq<Input>, x: Input)
    requires CollisionFree(w) && OwnPaths(e) && AllProper(inputs) && Proper(x) && Settled(e, inputs, x)
    ensures KeysDetermine(BuildsOf(w, e, inputs), BuildOf(w, e, x))
  {
    hide CollisionFree, OwnPaths, KeysDetermine, BuildOf, AllProper, Proper, BuildsOf;
    forall n, p | 0 <= n < |inputs| && p in inputs[n].generated && p in x.generated && SameSources(inputs[n], x, p)
      ensures SameText(e, inputs[n], x, p)
    {
      assert SameFacts(e, inputs[n], x, p);
    }
    DetermineExactly(w, e, inputs, x);
  }

  /** Keys determine what is emitted, whatever is written for what a package can look at, if and
      only if packages with unchanged sources see the same facts. */
  lemma {:induction false} SettledExactly(w: World, e: Emitter, inputs: seq<Input>, x: Input)
    requires CollisionFree(w) && OwnPaths(e) && AllProper(inputs) && Proper(x)
    ensures Settled(e, inputs, x) <==>
      forall text :: KeysDetermine(BuildsOf(w, e.(text := text), inputs), BuildOf(w, e.(text := text), x))
  {
    hide CollisionFree, OwnPaths, KeysDetermine, BuildOf, AllProper, Proper, BuildsOf;
    if Settled(e, inputs, x) {
      forall text ensures KeysDetermine(BuildsOf(w, e.(text := text), inputs), BuildOf(w, e.(text := text), x)) {
        OtherText(e, inputs, x, text);
        SettledDetermines(w, e.(text := text), inputs, x);
      }
    } else {
      var n, p :| 0 <= n < |inputs| && p in inputs[n].generated && p in x.generated && SameSources(inputs[n], x, p) &&
        !SameFacts(e, inputs[n], x, p);
      var seen := ViewOf(e, x, p);
      var text := (v: View, path: string) => if v == seen then "fresh" else "stale";
      OtherText(e, inputs, x, text);
      SomePath(e, x, p);
      var path :| path in PathsOf(e, x, p);
      var e1 := e.(text := text);
      assert path in PathsOf(e1, x, p);
      assert !SameText(e1, inputs[n], x, p);
      DetermineExactly(w, e1, inputs, x);
    }
  }

  lemma {:induction false} SomePath(e: Emitter, x: Input, p: string)
    requires OwnPaths(e)
    ensures PathsOf(e, x, p) != {}
  {
  }

  lemma {:induction false} OtherText(e: Emitter, inputs: seq<Input>, x: Input, text: (View, string) -> Data)
    requires OwnPaths(e)
    ensures OwnPaths(e.(text := text)) && (Settled(e.(text := text), inputs, x) <==> Settled(e, inputs, x))
  {
  }
}
