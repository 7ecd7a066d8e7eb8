/** The compile around the cache (compiler/service.go): replay or full pipeline, what either leaves
    in the output, and when a hit is stale. */
module CacheCompile {
  import opened Ordering
  import opened CacheKeys
  import opened CacheRuns
  import opened CacheReplay
  import opened CacheInputs
  import AsyncFacts
  import AsyncLocality

  datatype Outcome = Replayed | Compiled | Failed

  /** Writes files in any order; a file that cannot be written does not stop the others. */
  method WriteFiles(cache: ArtifactCache, files: map<string, Data>) returns (ok: bool)
    modifies cache`output, cache`failed
    ensures (old(cache.failed) ==> cache.failed) && (!cache.failed ==> ok)
    ensures ok ==> cache.output == old(cache.output) + files
    ensures forall p :: p !in files ==> SameAt(old(cache.output), cache.output, p)
    ensures old(cache.Sound()) ==> cache.Sound()
  {
    ok := true;
    var rest := files.Keys;
    while rest != {}
      invariant rest <= files.Keys && (old(cache.failed) ==> cache.failed) && (!cache.failed ==> ok)
      invariant ok ==> forall p :: p in files && p !in rest ==> p in cache.output && cache.output[p] == files[p]
      invariant forall p :: p !in files ==> SameAt(old(cache.output), cache.output, p)
      invariant old(cache.output).Keys <= cache.output.Keys
      decreases |rest|
    {
      var p :| p in rest;
      var written := cache.FileOperation();
      if written { cache.output := cache.output[p := files[p]]; } else { ok := false; }
      rest := rest - {p};
    }
    if ok { AddedAll(old(cache.output), files, cache.output); }
  }

  lemma {:induction false} AddedAll(a: map<string, Data>, files: map<string, Data>, b: map<string, Data>)
    requires forall p :: p in files ==> p in b && b[p] == files[p]
    requires forall p :: p !in files ==> SameAt(a, b, p)
    ensures b == a + files
  {
    forall p ensures p in b <==> p in (a + files) { assert p !in files ==> SameAt(a, b, p); }
    forall p | p in b ensures b[p] == (a + files)[p] { assert p !in files ==> SameAt(a, b, p); }
  }

  /** Every file of the copy plan has its fresh content. */
  ghost predicate FreshCopies(output: map<string, Data>, b: Build)
  {
    forall j, x :: 0 <= j < |b.plan| && 0 <= x < |b.plan[j].files| ==>
      var file := b.plan[j].files[x]; file.0 in output && output[file.0] == file.1
  }

  /** Every own file of a generated package and every copied file has its fresh content. */
  ghost predicate Fresh(output: map<string, Data>, b: Build, wanted: seq<Entry>, generated: nat)
    requires generated <= |wanted|
  {
    && (forall i, path :: 0 <= i < generated && OwnPath(wanted[i].package, path) && path in b.emitted ==>
          path in output && output[path] == b.emitted[path])
    && FreshCopies(output, b)
  }

  /** The copy plan of a compile takes each package once. */
  ghost predicate PlannedOnce(b: Build)
  {
    forall i, j :: 0 <= i < j < |b.plan| ==> b.plan[i].package != b.plan[j].package
  }

  /** Copies the files of the plan; a file that cannot be written does not stop the others. */
  method CopyPackages(cache: ArtifactCache, plan: seq<Copy>) returns (ok: bool)
    modifies cache`output, cache`failed
    ensures (old(cache.failed) ==> cache.failed) && (!cache.failed ==> ok)
    ensures ok ==> cache.output == Copied(old(cache.output), plan)
    ensures forall p :: Unplanned(plan, p) ==> SameAt(old(cache.output), cache.output, p)
    ensures old(cache.Sound()) ==> cache.Sound()
  {
    hide Plans;
    ok := true;
    for i := 0 to |plan|
      invariant (old(cache.failed) ==> cache.failed) && (!cache.failed ==> ok)
      invariant ok ==> cache.output == Copied(old(cache.output), plan[..i])
      invariant forall p :: Unplanned(plan, p) ==> SameAt(old(cache.output), cache.output, p)
    {
      ghost var start := cache.output;
      var files := plan[i].files;
      for j := 0 to |files|
        invariant (old(cache.failed) ==> cache.failed) && (!cache.failed ==> ok)
        invariant ok ==> cache.output == CopiedFiles(start, files[..j]) && start == Copied(old(cache.output), plan[..i])
        invariant forall p :: Unplanned(plan, p) ==> SameAt(old(cache.output), cache.output, p)
      {
        PlansFile(plan, i, j);
        var written := cache.FileOperation();
        if written { cache.output := cache.output[files[j].0 := files[j].1]; } else { ok := false; }
        assert files[..j + 1][..j] == files[..j];
      }
      assert files[..|files|] == files;
      assert plan[..i + 1][..i] == plan[..i];
    }
    assert plan[..|plan|] == plan;
  }

  function CopiedFiles(output: map<string, Data>, files: seq<(string, Data)>): map<string, Data>
  {
    if files == [] then output
    else CopiedFiles(output, files[..|files| - 1])[files[|files| - 1].0 := files[|files| - 1].1]
  }

  function Copied(output: map<string, Data>, plan: seq<Copy>): map<string, Data>
  {
    if plan == [] then output else CopiedFiles(Copied(output, plan[..|plan| - 1]), plan[|plan| - 1].files)
  }

  /** Copying leaves alone what is not in the files, and otherwise leaves one of their contents. */
  lemma {:induction false} CopiedFilesAt(output: map<string, Data>, files: seq<(string, Data)>, path: string)
    ensures (forall x :: 0 <= x < |files| ==> files[x].0 != path) ==> SameAt(output, CopiedFiles(output, files), path)
    ensures (exists x :: 0 <= x < |files| && files[x].0 == path) ==>
      path in CopiedFiles(output, files) &&
      exists x :: 0 <= x < |files| && files[x] == (path, CopiedFiles(output, files)[path])
  {
    if files != [] {
      var n := |files| - 1;
      var rest := files[..n];
      CopiedFilesAt(output, rest, path);
      assert forall x :: 0 <= x < n ==> rest[x] == files[x];
      if files[n].0 == path {
        assert files[n] == (path, CopiedFiles(output, files)[path]);
      } else if exists x :: 0 <= x < |files| && files[x].0 == path {
        var x :| 0 <= x < |files| && files[x].0 == path;
        assert rest[x].0 == path;
        var y :| 0 <= y < n && rest[y] == (path, CopiedFiles(output, rest)[path]);
        assert files[y] == (path, CopiedFiles(output, files)[path]);
      }
    }
  }

  /** The plan lists this content for the path. */
  ghost predicate Plans(plan: seq<Copy>, path: string, data: Data)
  {
    exists i :: 0 <= i < |plan| && (path, data) in plan[i].files
  }

  /** The plan has no file with this path. */
  ghost predicate Unplanned(plan: seq<Copy>, path: string)
  {
    forall d :: !Plans(plan, path, d)
  }

  lemma {:induction false} PlansFile(plan: seq<Copy>, i: nat, j: nat)
    requires i < |plan| && j < |plan[i].files|
    ensures Plans(plan, plan[i].files[j].0, plan[i].files[j].1)
  {
    assert plan[i].files[j] in plan[i].files;
  }

  lemma {:induction false} CopiedAt(output: map<string, Data>, plan: seq<Copy>, path: string)
    ensures Unplanned(plan, path) ==> SameAt(output, Copied(output, plan), path)
    ensures (exists d :: Plans(plan, path, d)) ==>
      path in Copied(output, plan) && Plans(plan, path, Copied(output, plan)[path])
  {
    if plan != [] {
      var n := |plan| - 1;
      var rest := plan[..n];
      CopiedAt(output, rest, path);
      CopiedFilesAt(Copied(output, rest), plan[n].files, path);
      forall d
        ensures Plans(plan, path, d) <==> Plans(rest, path, d) || (path, d) in plan[n].files
      {
        PlansSplit(plan, path, d);
      }
    }
  }

  lemma {:induction false} PlansSplit(plan: seq<Copy>, path: string, data: Data)
    requires plan != []
    ensures Plans(plan, path, data) <==> Plans(plan[..|plan| - 1], path, data) || (path, data) in plan[|plan| - 1].files
  {
    var rest := plan[..|plan| - 1];
    assert forall i :: 0 <= i < |rest| ==> rest[i] == plan[i];
    if Plans(rest, path, data) {
      var i :| 0 <= i < |rest| && (path, data) in rest[i].files;
      assert (path, data) in plan[i].files;
    }
  }

  /** What a plan copies lies outside the generated packages. */
  lemma {:induction false} PlannedOutside(b: Build, path: string, data: Data, p: string)
    requires PlanFits(b) && Plans(b.plan, path, data) && p in b.keys
    ensures !OwnPath(p, path)
  {
    var i :| 0 <= i < |b.plan| && (path, data) in b.plan[i].files;
    var x :| 0 <= x < |b.plan[i].files| && b.plan[i].files[x] == (path, data);
  }

  lemma {:induction false} OwnNotPlanned(b: Build, path: string, p: string)
    requires PlanFits(b) && OwnPath(p, path) && p in b.keys
    ensures Unplanned(b.plan, path)
  {
    hide PlanFits, Plans, OwnPath;
    forall d ensures !Plans(b.plan, path, d) {
      if Plans(b.plan, path, d) { PlannedOutside(b, path, d, p); }
    }
  }

  /** After a full compile everything is fresh. */
  lemma {:induction false} CompiledFresh(start: map<string, Data>, b: Build, wanted: seq<Entry>, generated: nat)
    requires Asks(b, wanted, generated) && PlanFits(b)
    requires forall p :: p in b.emitted ==> p in start && start[p] == b.emitted[p]
    ensures Fresh(Copied(start, b.plan), b, wanted, generated)
  {
    var out := Copied(start, b.plan);
    forall i, path | 0 <= i < generated && OwnPath(wanted[i].package, path) && path in b.emitted
      ensures path in out && out[path] == b.emitted[path]
    {
      OwnNotPlanned(b, path, wanted[i].package);
      CopiedAt(start, b.plan, path);
    }
    forall j, x | 0 <= j < |b.plan| && 0 <= x < |b.plan[j].files|
      ensures var file := b.plan[j].files[x]; file.0 in out && out[file.0] == file.1
    {
      var (path, data) := b.plan[j].files[x];
      assert Plans(b.plan, path, data);
      CopiedAt(start, b.plan, path);
      var i :| 0 <= i < |b.plan| && (path, out[path]) in b.plan[i].files;
      var y :| 0 <= y < |b.plan[i].files| && b.plan[i].files[y] == (path, out[path]);
    }
  }

  /** What StoreGenerated and StoreCopied have stored is of this compile. */
  lemma {:induction false} StoredHere(c: Setting, b: Build, wanted: seq<Entry>, generated: nat,
                                      before: map<string, Dir>, after: map<string, Dir>)
    requires Asks(b, wanted, generated) && PlannedOnce(b)
    requires forall k ::
      k in after && k !in before ==>
        after[k].complete && after[k].text.Whole? && after[k].text.m.key == k &&
        Entry(k, after[k].text.m.kind, after[k].text.m.package) in wanted
    requires forall k :: k in after && k !in before ==>
      var m := after[k].text.m;
      (m.kind == GENERATED && Describes(c, m, b.emitted)) ||
      (m.kind == COPIED &&
       exists i :: 0 <= i < |b.plan| && b.plan[i].package == m.package && Lists(c, m.files, b.plan[i].files))
    ensures forall k :: k in after && k !in before ==> StoredBy(c, b, k, after[k]) || CopiedBy(c, b, k, after[k])
  {
    hide Describes, Lists, Asks;
    forall k | k in after && k !in before ensures StoredBy(c, b, k, after[k]) || CopiedBy(c, b, k, after[k]) {
      AskedKey(b, wanted, generated, k, after[k].text.m.package);
    }
  }

  lemma {:induction false} HitFresh(c: Setting, history: seq<Build>, b: Build, wanted: seq<Entry>, generated: nat,
                                    entries: map<string, Dir>, ms: seq<Manifest>, blobs: map<string, Data>,
                                    output: map<string, Data>)
    requires forall x, y :: c.hash(x) == c.hash(y) ==> x == y
    requires FromHistory(c, history, entries) && CopyKeysDetermine(history, b) && Asks(b, wanted, generated)
    requires PlanFits(b)
    requires ManifestsOf(wanted, entries, ms) && Replayable(c, blobs, AllFiles(ms))
    ensures FreshCopies(Written(output, blobs, AllFiles(ms)), b)
    ensures KeysDetermine(history, b) ==> Fresh(Written(output, blobs, AllFiles(ms)), b, wanted, generated)
  {
    hide FromHistory, KeysDetermine, CopyKeysDetermine, Describes, Written, Replayable, AllFiles, OwnPath, PlanFits;
    var out := Written(output, blobs, AllFiles(ms));
    forall i, path | KeysDetermine(history, b) && 0 <= i < generated && OwnPath(wanted[i].package, path) &&
      path in b.emitted
      ensures path in out && out[path] == b.emitted[path]
    {
      HitAgrees(c, history, b, wanted, generated, entries, ms, blobs, output, i, path);
    }
    forall j, x | 0 <= j < |b.plan| && 0 <= x < |b.plan[j].files|
      ensures var file := b.plan[j].files[x]; file.0 in out && out[file.0] == file.1
    {
      CopyAgrees(c, history, b, wanted, generated, entries, ms, blobs, output, j, x);
    }
  }

  // ----- what a hit gives -----

  /** The files of the package are as an earlier compile, which had the same sources for it, wrote
      them. */
  ghost predicate GivenBy(e: Emitter, a: Input, x: Input, p: string, output: map<string, Data>)
  {
    p in a.generated && SameSources(a, x, p) &&
    forall path :: path in PathsOf(e, x, p) ==> path in output && output[path] == e.text(ViewOf(e, a, p), path)
  }

  /** The own files of the package are those of this compile. */
  ghost predicate OwnFresh(e: Emitter, x: Input, p: string, output: map<string, Data>)
  {
    forall path :: path in PathsOf(e, x, p) ==> path in output && output[path] == e.text(ViewOf(e, x, p), path)
  }

  /** What an earlier compile wrote is fresh if and only if this one would write the same, which
      it does when the package sees the same facts. */
  lemma {:induction false} GivenFreshExactly(e: Emitter, a: Input, x: Input, p: string, output: map<string, Data>)
    requires GivenBy(e, a, x, p, output)
    ensures OwnFresh(e, x, p, output) <==> SameText(e, a, x, p)
    ensures SameFacts(e, a, x, p) ==> OwnFresh(e, x, p, output)
  {
    hide ViewOf, ClosureOf;
    assert SameFacts(e, a, x, p) ==> ViewOf(e, a, p) == ViewOf(e, x, p) by { SameView(e, a, x, p); }
  }

  lemma {:induction false} SameView(e: Emitter, a: Input, x: Input, p: string)
    requires SameSources(a, x, p)
    ensures SameFacts(e, a, x, p) <==> ViewOf(e, a, p) == ViewOf(e, x, p)
  {
  }

  /** The setting of a compile: the hash has no collisions, and packages have their own paths. */
  ghost predicate Sensible(c: Setting, w: World, e: Emitter)
  {
    CollisionFree(w) && w.hash == c.hash && OwnPaths(e)
  }

  lemma {:induction false} Injective(c: Setting, w: World, e: Emitter)
    requires Sensible(c, w, e)
    ensures forall d, f :: c.hash(d) == c.hash(f) ==> d == f
  {
    assert forall d, f :: w.hash(d) == w.hash(f) ==> d == f;
  }

  /** A hit gives each generated package the files of the compile that stored its entry. */
  lemma {:induction false} HitGiven(c: Setting, w: World, e: Emitter, inputs: seq<Input>, x: Input, wanted: seq<Entry>,
                                    generated: nat, entries: map<string, Dir>, ms: seq<Manifest>,
                                    blobs: map<string, Data>, output: map<string, Data>, i: nat)
    returns (n: nat)
    requires Sensible(c, w, e) && AllProper(inputs) && Proper(x)
    requires FromHistory(c, BuildsOf(w, e, inputs), entries)
    requires ReplayOf(c, BuildOf(w, e, x), wanted, generated, entries, ms, blobs)
    requires i < generated
    ensures i < |wanted| && wanted[i].package in x.generated && wanted[i].key in entries
    ensures n < |inputs| && StoredBy(c, BuildOf(w, e, inputs[n]), wanted[i].key, entries[wanted[i].key])
    ensures GivenBy(e, inputs[n], x, wanted[i].package, Written(output, blobs, AllFiles(ms)))
  {
    hide FromHistory, Replayable, PlanFits, Written, AllFiles, BuildOf, KeyOf, Acyclic, Recorded, PathRecorded,
         PlainKeys, SameSources, StoredBy, CollisionFree, OwnPaths, OwnPath, CopyKeysDetermine;
    Injective(c, w, e);
    CopiesDetermined(w, e, inputs, x);
    var builds, b, p := BuildsOf(w, e, inputs), BuildOf(w, e, x), wanted[i].package;
    n := HitGives(c, builds, b, wanted, generated, entries, ms, blobs, output, i);
    BuildKeys(w, e, inputs[n], p);
    BuildKeys(w, e, x, p);
    KeysExactly(w, inputs[n], x, p, p);
    EmittedAs(w, e, inputs[n], x, p);
  }

  lemma {:induction false} EmittedAs(w: World, e: Emitter, a: Input, x: Input, p: string)
    requires OwnPaths(e) && Proper(a) && p in a.generated && SameSources(a, x, p)
    ensures forall path :: path in PathsOf(e, x, p) ==>
      OwnPath(p, path) && path in BuildOf(w, e, a).emitted &&
      BuildOf(w, e, a).emitted[path] == e.text(ViewOf(e, a, p), path)
  {
    hide ClosureOf, ViewOf, OwnPath, Emitted, KeyOf;
    forall path | path in PathsOf(e, x, p)
      ensures OwnPath(p, path) && path in BuildOf(w, e, a).emitted &&
        BuildOf(w, e, a).emitted[path] == e.text(ViewOf(e, a, p), path)
    {
      assert path in PathsOf(e, a, p);
      EmittedOwn(e, a, p, path);
    }
  }

  /** An earlier compile stored the entry, and its files for the package are in the output. */
  ghost predicate GivenEarlier(c: Setting, w: World, e: Emitter, inputs: seq<Input>, x: Input, entry: Entry,
                               entries: map<string, Dir>, output: map<string, Data>)
    requires AllProper(inputs)
  {
    exists n :: 0 <= n < |inputs| && GivenBy(e, inputs[n], x, entry.package, output) &&
      entry.key in entries && StoredBy(c, BuildOf(w, e, inputs[n]), entry.key, entries[entry.key])
  }

  // ----- the compile -----

  /** Every entry of the compile is there with all its blobs. */
  ghost predicate Cached(cache: ArtifactCache, b: Build, nodes: seq<GraphNode>)
    reads cache
  {
    && (forall n :: n in nodes && !n.override && n.package in b.keys ==>
        cache.AllThere(Entry(b.keys[n.package], GENERATED, n.package)))
    && (forall i :: 0 <= i < |b.plan| ==> cache.AllThere(Entry(b.plan[i].key, COPIED, b.plan[i].package)))
  }

  lemma {:induction false} CachedWanted(cache: ArtifactCache, b: Build, nodes: seq<GraphNode>, wanted: seq<Entry>,
                                        generated: nat)
    requires Cached(cache, b, nodes) && Asks(b, wanted, generated)
    requires forall i :: 0 <= i < generated ==> GraphNode(wanted[i].package, false) in nodes
    ensures forall e :: e in wanted ==> cache.AllThere(e)
  {
    forall i | 0 <= i < |wanted| ensures cache.AllThere(wanted[i]) {
      if i < generated {
        assert wanted[i] == Entry(b.keys[wanted[i].package], GENERATED, wanted[i].package);
        assert cache.AllThere(Entry(b.keys[wanted[i].package], GENERATED, wanted[i].package)) by {
          assert GraphNode(wanted[i].package, false) in nodes;
        }
      } else {
        var j := i - generated;
        assert wanted[generated + j] == Entry(b.plan[j].key, COPIED, b.plan[j].package);
      }
    }
  }

  lemma {:induction false} HitCached(cache: ArtifactCache, b: Build, nodes: seq<GraphNode>, wanted: seq<Entry>,
                                     generated: nat, ms: seq<Manifest>)
    requires Asks(b, wanted, generated) && ManifestsOf(wanted, cache.entries, ms)
    requires Replayable(cache.c, cache.blobs, AllFiles(ms))
    requires forall n ::
      n in nodes && !n.override ==>
        n.package in b.keys && Entry(b.keys[n.package], GENERATED, n.package) in wanted[..generated]
    ensures Cached(cache, b, nodes)
  {
    hide Replayable, AllFiles;
    forall i | 0 <= i < |wanted| ensures cache.AllThere(wanted[i]) { PartReplayable(cache.c, cache.blobs, ms, i); }
    forall n | n in nodes && !n.override ensures cache.AllThere(Entry(b.keys[n.package], GENERATED, n.package)) {
      var i :| 0 <= i < generated && wanted[i] == Entry(b.keys[n.package], GENERATED, n.package);
    }
    forall j | 0 <= j < |b.plan| ensures cache.AllThere(Entry(b.plan[j].key, COPIED, b.plan[j].package)) {
      assert wanted[generated + j] == Entry(b.plan[j].key, COPIED, b.plan[j].package);
    }
  }

  lemma {:induction false} PartReplayable(c: Setting, blobs: map<string, Data>, ms: seq<Manifest>, i: nat)
    requires i < |ms| && Replayable(c, blobs, AllFiles(ms))
    ensures Replayable(c, blobs, ms[i].files)
  {
    hide AllFiles;
    forall f | f in ms[i].files ensures f in AllFiles(ms) {
      var k :| 0 <= k < |ms[i].files| && ms[i].files[k] == f;
      AtIndex(ms, i, k);
    }
  }

  /** The files are those of the entries in front, all of them on a hit. */
  ghost predicate Tried(wanted: seq<Entry>, entries: map<string, Dir>, tried: seq<File>, hit: bool)
  {
    exists ms :: |ms| <= |wanted| && ManifestsOf(wanted[..|ms|], entries, ms) &&
      if hit then |ms| == |wanted| && tried == AllFiles(ms) else tried <= AllFiles(ms)
  }

  /** Neither the compile nor the replay in front of it has a file with this path. */
  ghost predicate Beside(b: Build, tried: seq<File>, path: string)
  {
    path !in b.emitted && Unplanned(b.plan, path) && forall f :: f in tried ==> f.path != path
  }

  /** All other paths are as before. */
  ghost predicate KeptBeside(before: map<string, Data>, after: map<string, Data>, b: Build, tried: seq<File>)
  {
    forall path :: Beside(b, tried, path) ==> SameAt(before, after, path)
  }

  lemma {:induction false} ReplayedBeside(output: map<string, Data>, blobs: map<string, Data>, b: Build,
                                          tried: seq<File>)
    ensures KeptBeside(output, Written(output, blobs, tried), b, tried)
  {
    hide Unplanned;
    forall path | Beside(b, tried, path) ensures SameAt(output, Written(output, blobs, tried), path) {
      WrittenBeside(output, blobs, tried, path);
    }
  }

  lemma {:induction false} BesideThen(x: map<string, Data>, y: map<string, Data>, z: map<string, Data>, b: Build,
                                      tried: seq<File>)
    requires KeptBeside(x, y, b, tried) && KeptBeside(y, z, b, [])
    ensures KeptBeside(x, z, b, tried)
  {
    hide Unplanned;
    forall path | Beside(b, tried, path) ensures SameAt(x, z, path) { assert Beside(b, [], path); }
  }

  lemma {:induction false} WroteBeside(x: map<string, Data>, y: map<string, Data>, z: map<string, Data>, b: Build)
    requires forall path :: path !in b.emitted ==> SameAt(x, y, path)
    requires y == z || forall path :: Unplanned(b.plan, path) ==> SameAt(y, z, path)
    ensures KeptBeside(x, z, b, [])
  {
    hide Unplanned;
  }

  /** Compile: replay when everything is there, the full pipeline otherwise. A compile is fresh; a
      replay gives each package the files of an earlier compile with the same sources for it, and
      is fresh when packages with unchanged sources see unchanged facts. Entries never change. The
      output changes by the files that the replay wrote before it hit or missed, `tried`, and by what
      the compile writes and copies, and nowhere else. */
  method Compile(cache: ArtifactCache, b: Build, nodes: seq<GraphNode>, packages: seq<string>,
                 ghost w: World, ghost e: Emitter, ghost inputs: seq<Input>, ghost x: Input)
    returns (outcome: Outcome, ghost wanted: seq<Entry>, ghost generated: nat, ghost inputs1: seq<Input>,
             ghost tried: seq<File>)
    requires cache.Valid() && Sensible(cache.c, w, e) && AllProper(inputs) && Proper(x) && b == BuildOf(w, e, x)
    requires FromHistory(cache.c, BuildsOf(w, e, inputs), cache.entries)
    requires PlanFits(b) && PlannedOnce(b)
    requires forall i, j :: 0 <= i < j < |nodes| ==> Leq(nodes[i].package, nodes[j].package)
    requires forall i :: 0 <= i < |nodes| && !nodes[i].override ==> nodes[i].package in b.keys
    modifies cache`blobs, cache`entries, cache`output, cache`failed
    ensures cache.Valid() && AllProper(inputs1) && FromHistory(cache.c, BuildsOf(w, e, inputs1), cache.entries)
    ensures inputs1 == inputs || (outcome != Replayed && inputs1 == inputs + [x])
    ensures forall k :: k in old(cache.entries) ==> k in cache.entries && cache.entries[k] == old(cache.entries)[k]
    ensures forall k :: k in cache.entries && k !in old(cache.entries) ==>
      StoredBy(cache.c, b, k, cache.entries[k]) || CopiedBy(cache.c, b, k, cache.entries[k])
    ensures Asks(b, wanted, generated) &&
            forall n :: n in nodes && !n.override ==>
              Entry(b.keys[n.package], GENERATED, n.package) in wanted[..generated]
    ensures Tried(wanted, old(cache.entries), tried, outcome == Replayed)
    ensures Replayable(cache.c, old(cache.blobs), tried) && (wanted == [] ==> outcome != Replayed)
    ensures outcome == Replayed ==> cache.output == Written(old(cache.output), old(cache.blobs), tried)
    ensures outcome == Compiled ==>
      cache.output == Copied(Written(old(cache.output), old(cache.blobs), tried) + b.emitted, b.plan)
    ensures KeptBeside(old(cache.output), cache.output, b, tried)
    ensures outcome == Compiled ==> Fresh(cache.output, b, wanted, generated)
    ensures outcome == Replayed ==> FreshCopies(cache.output, b) && Cached(cache, b, nodes)
    ensures outcome == Replayed ==>
      forall i :: 0 <= i < generated ==> GivenEarlier(cache.c, w, e, inputs, x, wanted[i], cache.entries, cache.output)
    ensures outcome != Failed && Settled(e, inputs, x) ==> Fresh(cache.output, b, wanted, generated)
    ensures (old(cache.failed) ==> cache.failed) && (!cache.failed ==> outcome != Failed)
    ensures !cache.failed && DistinctBlobs(cache.c) && old(cache.Sound()) ==> cache.Sound()
    ensures !cache.failed && wanted != [] && old(Cached(cache, b, nodes)) ==> outcome == Replayed
    ensures !cache.failed && outcome == Compiled ==>
      inputs1 == inputs + [x] && EntriesMade(cache.entries, b, nodes, packages)
  {
    hide FromHistory, KeysDetermine, CopyKeysDetermine, Describes, Lists, Written, Replayable, AllFiles, FreshCopies,
         Fresh, PlanFits, Copied, StoredBy, CopiedBy, InOrder, PlannedOnce, CollisionFree, Proper, OwnPaths, Settled,
         Cached, EntriesMade, BuildOf, BuildsOf, GivenBy, DistinctBlobs, KeptBeside, SameAt, Unplanned;
    ghost var start := cache.output;
    inputs1 := inputs;
    var asked;
    asked, generated := Entries(nodes, b.keys, b.plan);
    wanted := asked;
    if Cached(cache, b, nodes) { CachedWanted(cache, b, nodes, wanted, generated); }
    var hit, compiledPackages, copiedPackages, ms, files := cache.Replay(asked);
    tried := files;
    assert wanted[..|wanted|] == wanted;
    assert Tried(wanted, old(cache.entries), tried, hit);
    ghost var missed := cache.output;
    ReplayedBeside(start, cache.blobs, b, tried);
    if hit {
      HitIs(cache.c, w, e, inputs, x, wanted, generated, cache.entries, ms, cache.blobs, start);
      HitCached(cache, b, nodes, wanted, generated, ms);
      return Replayed, wanted, generated, inputs1, tried;
    }
    ghost var before := cache.entries;
    outcome := CompileAll(cache, b, asked, nodes, packages, generated);
    BesideThen(start, missed, cache.output, b, tried);
    if outcome != Failed || cache.entries != before {
      inputs1 := inputs + [x];
      HistoryGrows(cache.c, BuildsOf(w, e, inputs), b, before, cache.entries);
      BuildsGrow(w, e, inputs, x);
    }
  }

  /** The pipeline behind a miss: emit, write, store, copy, store. */
  method CompileAll(cache: ArtifactCache, b: Build, wanted: seq<Entry>, ghost nodes: seq<GraphNode>,
                    packages: seq<string>, ghost generated: nat)
    returns (outcome: Outcome)
    requires cache.Valid() && PlanFits(b) && PlannedOnce(b) && Asks(b, wanted, generated)
    requires forall n ::
      n in nodes && !n.override ==>
        n.package in b.keys && Entry(b.keys[n.package], GENERATED, n.package) in wanted[..generated]
    modifies cache`blobs, cache`entries, cache`output, cache`failed
    ensures cache.Valid() && outcome != Replayed
    ensures forall k :: k in old(cache.entries) ==> k in cache.entries && cache.entries[k] == old(cache.entries)[k]
    ensures forall k :: k in cache.entries && k !in old(cache.entries) ==>
      StoredBy(cache.c, b, k, cache.entries[k]) || CopiedBy(cache.c, b, k, cache.entries[k])
    ensures outcome == Compiled ==>
      cache.output == Copied(old(cache.output) + b.emitted, b.plan) && Fresh(cache.output, b, wanted, generated)
    ensures KeptBeside(old(cache.output), cache.output, b, [])
    ensures (old(cache.failed) ==> cache.failed) &&
      (!cache.failed ==> outcome == Compiled && EntriesMade(cache.entries, b, nodes, packages))
    ensures !cache.failed && DistinctBlobs(cache.c) && old(cache.Sound()) ==> cache.Sound()
  {
    hide Describes, Lists, Written, Replayable, AllFiles, Fresh, PlanFits, Copied, StoredBy, CopiedBy, InOrder,
         PlannedOnce, EntriesMade, GeneratedEntries, DistinctBlobs, Asks, HasFiles, Holds, SameAt, Unplanned,
         KeptBeside, ArtifactCache.Sound, ArtifactCache.Visible;
    ghost var before, start := cache.entries, cache.output;
    var written := WriteFiles(cache, b.emitted);
    if !written {
      WroteBeside(start, cache.output, cache.output, b);
      return Failed;
    }
    cache.StoreGenerated(wanted, packages, b.emitted);
    ghost var output, stored := cache.output, cache.entries;
    if !cache.failed { GeneratedMade(cache, b, nodes, packages, wanted, generated); }
    var copiedAll := CopyPackages(cache, b.plan);
    WroteBeside(start, output, cache.output, b);
    if copiedAll {
      cache.StoreCopied(wanted, b.plan);
      CompiledFresh(output, b, wanted, generated);
      if !cache.failed { CopiesMade(cache, b, nodes, packages, wanted, generated, stored); }
      outcome := Compiled;
    } else {
      outcome := Failed;
    }
    StoredHere(cache.c, b, wanted, generated, before, cache.entries);
  }

  // ----- what a compile leaves of the rest of the output -----

  /** The last file with this path holds the data of the output. */
  ghost predicate LastAgrees(output: map<string, Data>, blobs: map<string, Data>, files: seq<File>, path: string)
  {
    forall y :: 0 <= y < |files| && files[y].path == path && (forall z :: y < z < |files| ==> files[z].path != path) ==>
      path in output && files[y].blob in blobs && blobs[files[y].blob] == output[path]
  }

  lemma {:induction false} WrittenSame(c: Setting, output: map<string, Data>, blobs: map<string, Data>,
                                       files: seq<File>, path: string)
    requires Replayable(c, blobs, files)
    ensures SameAt(output, Written(output, blobs, files), path) <==> LastAgrees(output, blobs, files, path)
  {
    hide Written, Replayable;
    if forall f :: f in files ==> f.path != path {
      WrittenBeside(output, blobs, files, path);
    } else {
      var y := LastIndex(files, path);
      AllThereAt(c, blobs, files, y);
      LastWriter(output, blobs, files, y, path, blobs[files[y].blob]);
    }
  }

  lemma {:induction false} AllThereAt(c: Setting, blobs: map<string, Data>, files: seq<File>, y: nat)
    requires Replayable(c, blobs, files) && y < |files|
    ensures files[y].blob in blobs
  {
  }

  lemma {:induction false} LastIndex(files: seq<File>, path: string) returns (y: nat)
    requires exists f :: f in files && f.path == path
    ensures y < |files| && files[y].path == path && forall z :: y < z < |files| ==> files[z].path != path
  {
    var n := |files| - 1;
    if files[n].path == path { return n; }
    assert files[..n] + [files[n]] == files;
    y := LastIndex(files[..n], path);
    assert forall z :: y < z < n ==> files[..n][z] == files[z];
  }

  /** What a full compile leaves at a path that it neither writes nor copies is what was there if
      and only if the replay that missed wrote nothing else there. */
  lemma {:induction false} BesideExactly(c: Setting, output: map<string, Data>, blobs: map<string, Data>, b: Build,
                                         tried: seq<File>, path: string)
    requires path !in b.emitted && Unplanned(b.plan, path) && Replayable(c, blobs, tried)
    ensures SameAt(output, Copied(Written(output, blobs, tried) + b.emitted, b.plan), path) <==>
            LastAgrees(output, blobs, tried, path)
  {
    hide LastAgrees, Unplanned, Replayable;
    WrittenSame(c, output, blobs, tried, path);
    CopiedAt(Written(output, blobs, tried) + b.emitted, b.plan, path);
  }

  /** It wrote nothing at all when the first entry is not in the cache. */
  lemma {:induction false} NothingTried(wanted: seq<Entry>, entries: map<string, Dir>, tried: seq<File>)
    requires Tried(wanted, entries, tried, false) && (wanted == [] || wanted[0].key !in entries)
    ensures tried == []
  {
    var ms :| |ms| <= |wanted| && ManifestsOf(wanted[..|ms|], entries, ms) && tried <= AllFiles(ms);
    if ms != [] { FirstThere(wanted[..|ms|], entries, ms); }
  }

  lemma {:induction false} FirstThere(wanted: seq<Entry>, entries: map<string, Dir>, ms: seq<Manifest>)
    requires ManifestsOf(wanted, entries, ms) && wanted != []
    ensures wanted[0].key in entries
  {
    assert ms[0].kind == wanted[0].kind;
  }

  /** Replaying the entry of a package writes the files of the packages below it too, as the compile
      that stored the entry emitted them. */
  lemma {:induction false} BelowReplayed(c: Setting, a: Build, key: string, dir: Dir, path: string,
                                         blobs: map<string, Data>, output: map<string, Data>)
    requires forall d, f :: c.hash(d) == c.hash(f) ==> d == f
    requires StoredBy(c, a, key, dir) && path in a.emitted && Prefix(dir.text.m.package) <= path
    requires Replayable(c, blobs, dir.text.m.files)
    ensures var out := Written(output, blobs, dir.text.m.files); path in out && out[path] == a.emitted[path]
  {
    var files, f := dir.text.m.files, FileOf(c, path, a.emitted[path]);
    var x :| 0 <= x < |files| && files[x] == f;
    assert blobs[f.blob] == a.emitted[path];
    assert forall y :: 0 <= y < |files| && files[y].path == path ==> files[y] in files && files[y] == f;
    LastWriter(output, blobs, files, x, path, a.emitted[path]);
  }

  /** So a hit of `p` alone brings back an earlier file of `p/q`, which is not part of the compile. */
  lemma {:induction false} BelowOverwritten(c: Setting, dir: Dir, blobs: map<string, Data>)
    requires forall d, f :: c.hash(d) == c.hash(f) ==> d == f
    requires dir.text.Whole? && dir.text.m.package == "p"
    requires var both := Build(map["@goscript/p/index.ts" := "1", "@goscript/p/q/index.ts" := "2"],
                               map["p" := "k"], []);
      StoredBy(c, both, "k", dir) && Replayable(c, blobs, dir.text.m.files)
    ensures var b, path := Build(map["@goscript/p/index.ts" := "1"], map["p" := "k"], []), "@goscript/p/q/index.ts";
      path !in b.emitted && Unplanned(b.plan, path) &&
      var out := Written(map[path := "3"], blobs, dir.text.m.files); path in out && out[path] == "2"
  {
    var both := Build(map["@goscript/p/index.ts" := "1", "@goscript/p/q/index.ts" := "2"], map["p" := "k"], []);
    var path := "@goscript/p/q/index.ts";
    assert path in both.emitted && both.emitted[path] == "2";
    assert Prefix("p") == "@goscript/p/" && path[..12] == "@goscript/p/" && Prefix("p") <= path;
    BelowReplayed(c, both, "k", dir, path, blobs, map[path := "3"]);
  }

  // ----- a hit on what the compile itself has stored -----

  /** Every file that is emitted lies directly in one of the packages. */
  ghost predicate Owned(b: Build)
  {
    forall path :: path in b.emitted ==> exists p :: p in b.keys && OwnPath(p, path)
  }

  lemma {:induction false} BuildOwned(w: World, e: Emitter, x: Input)
    requires OwnPaths(e) && Proper(x)
    ensures Owned(BuildOf(w, e, x))
  {
    hide KeyOf, ViewOf, Proper, ClosureOf, OwnPath;
    var b := BuildOf(w, e, x);
    forall path | path in b.emitted ensures exists p :: p in b.keys && OwnPath(p, path) {
      var p := OwnerOf(e, x, path);
      assert path in AllPaths(e, x) && path in PathsOf(e, x, p);
      BuildKeys(w, e, x, p);
    }
  }

  /** Every entry is of this compile. */
  ghost predicate OfThis(c: Setting, b: Build, entries: map<string, Dir>)
  {
    forall k :: k in entries ==> StoredBy(c, b, k, entries[k]) || CopiedBy(c, b, k, entries[k])
  }

  /** The file holds what the output has there. */
  ghost predicate Holding(output: map<string, Data>, blobs: map<string, Data>, f: File)
  {
    f.path in output && f.blob in blobs && blobs[f.blob] == output[f.path]
  }

  lemma {:induction false} WritesNothing(output: map<string, Data>, blobs: map<string, Data>, files: seq<File>)
    requires forall f :: f in files ==> Holding(output, blobs, f)
    ensures Written(output, blobs, files) == output
  {
    if files != [] {
      var n := |files| - 1;
      WritesNothing(output, blobs, files[..n]);
      assert Holding(output, blobs, files[n]);
    }
  }

  /** What a compile has stored is what it has left in the output. */
  lemma {:induction false} StoredIsLeft(c: Setting, b: Build, wanted: seq<Entry>, generated: nat, k: string, dir: Dir,
                                        blobs: map<string, Data>, start: map<string, Data>, f: File)
    requires forall d, e :: c.hash(d) == c.hash(e) ==> d == e
    requires Asks(b, wanted, generated) && PlanFits(b) && Owned(b)
    requires StoredBy(c, b, k, dir) || CopiedBy(c, b, k, dir)
    requires f in dir.text.m.files && f.blob in blobs && Matches(c, blobs[f.blob], f)
    ensures Holding(Copied(start + b.emitted, b.plan), blobs, f)
  {
    hide PlanFits, Plans, OwnPath, Asks, Copied;
    var all := start + b.emitted;
    if StoredBy(c, b, k, dir) {
      var p :| p in b.keys && OwnPath(p, f.path);
      OwnNotPlanned(b, f.path, p);
      CopiedAt(all, b.plan, f.path);
    } else {
      var i :| 0 <= i < |b.plan| && Lists(c, dir.text.m.files, b.plan[i].files);
      var files := b.plan[i].files;
      assert Lists(c, dir.text.m.files, files);
      var x :| 0 <= x < |files| && f == FileOf(c, files[x].0, files[x].1);
      CompiledFresh(all, b, wanted, generated);
    }
  }

  /** A replay of what the compile itself has stored leaves its output as it is. */
  lemma {:induction false} ReplayKeepsOutput(c: Setting, b: Build, wanted: seq<Entry>, generated: nat,
                                             entries: map<string, Dir>, blobs: map<string, Data>,
                                             start: map<string, Data>, tried: seq<File>)
    requires forall d, e :: c.hash(d) == c.hash(e) ==> d == e
    requires Asks(b, wanted, generated) && PlanFits(b) && Owned(b) && OfThis(c, b, entries)
    requires Tried(wanted, entries, tried, true) && Replayable(c, blobs, tried)
    ensures var output := Copied(start + b.emitted, b.plan); Written(output, blobs, tried) == output
  {
    hide StoredBy, CopiedBy, PlanFits, Owned, Asks, Copied, Holding, AllFiles, Written;
    var ms :| |ms| == |wanted| && ManifestsOf(wanted[..|ms|], entries, ms) && tried == AllFiles(ms);
    var output := Copied(start + b.emitted, b.plan);
    forall f | f in tried ensures Holding(output, blobs, f) {
      var y :| 0 <= y < |tried| && tried[y] == f;
      var n, j := FileFrom(ms, y);
      var key := wanted[..|ms|][n].key;
      assert key in entries && entries[key].text == Whole(ms[n]);
      StoredIsLeft(c, b, wanted, generated, key, entries[key], blobs, start, f);
    }
    WritesNothing(output, blobs, tried);
  }

  lemma {:induction false} BuildsGrow(w: World, e: Emitter, inputs: seq<Input>, x: Input)
    requires AllProper(inputs) && Proper(x)
    ensures AllProper(inputs + [x]) && BuildsOf(w, e, inputs + [x]) == BuildsOf(w, e, inputs) + [BuildOf(w, e, x)]
  {
    hide Proper, BuildOf;
  }

  /** The compiled packages that are asked for and have files, and the copied packages with files,
      have entries. */
  ghost predicate EntriesMade(entries: map<string, Dir>, b: Build, nodes: seq<GraphNode>, packages: seq<string>)
  {
    && GeneratedEntries(entries, b, nodes, packages)
    && (forall i :: 0 <= i < |b.plan| && b.plan[i].files != [] ==> b.plan[i].key in entries)
  }

  ghost predicate GeneratedEntries(entries: map<string, Dir>, b: Build, nodes: seq<GraphNode>, packages: seq<string>)
  {
    forall n ::
      n in nodes && !n.override && n.package in b.keys && n.package in packages && HasFiles(b.emitted, n.package) ==>
        b.keys[n.package] in entries
  }

  lemma {:induction false} GeneratedMade(cache: ArtifactCache, b: Build, nodes: seq<GraphNode>, packages: seq<string>,
                                         wanted: seq<Entry>, generated: nat)
    requires Asks(b, wanted, generated)
    requires forall n ::
      n in nodes && !n.override ==>
        n.package in b.keys && Entry(b.keys[n.package], GENERATED, n.package) in wanted[..generated]
    requires forall i ::
      0 <= i < |packages| && HasFiles(b.emitted, packages[i]) ==> cache.Visible(wanted, GENERATED, packages[i])
    ensures GeneratedEntries(cache.entries, b, nodes, packages)
  {
    hide HasFiles;
    forall n | n in nodes && !n.override && n.package in packages && HasFiles(b.emitted, n.package)
      ensures b.keys[n.package] in cache.entries
    {
      var e := Entry(b.keys[n.package], GENERATED, n.package);
      assert e in wanted[..generated] && e in wanted;
      var i :| 0 <= i < |packages| && packages[i] == n.package;
      assert cache.Visible(wanted, GENERATED, packages[i]);
      var d :| d in wanted && d.kind == GENERATED && d.package == n.package && d.key in cache.entries;
      AskedKey(b, wanted, generated, d.key, d.package);
      assert d == Entry(d.key, GENERATED, d.package);
    }
  }

  lemma {:induction false} CopiesMade(cache: ArtifactCache, b: Build, nodes: seq<GraphNode>, packages: seq<string>,
                                      wanted: seq<Entry>, generated: nat, stored: map<string, Dir>)
    requires Asks(b, wanted, generated) && PlannedOnce(b) && GeneratedEntries(stored, b, nodes, packages)
    requires forall k :: k in stored ==> k in cache.entries
    requires forall i :: 0 <= i < |b.plan| && b.plan[i].files != [] ==> cache.Visible(wanted, COPIED, b.plan[i].package)
    ensures EntriesMade(cache.entries, b, nodes, packages)
  {
    hide HasFiles;
    forall i | 0 <= i < |b.plan| && b.plan[i].files != [] ensures b.plan[i].key in cache.entries {
      assert wanted[generated + i] == Entry(b.plan[i].key, COPIED, b.plan[i].package);
      assert wanted[generated + i] in wanted;
      assert cache.Visible(wanted, COPIED, b.plan[i].package);
      var d :| d in wanted && d.kind == COPIED && d.package == b.plan[i].package && d.key in cache.entries;
      AskedKey(b, wanted, generated, d.key, d.package);
      assert d == Entry(d.key, COPIED, d.package);
    }
  }

  lemma {:induction false} HitIs(c: Setting, w: World, e: Emitter, inputs: seq<Input>, x: Input, wanted: seq<Entry>,
                                 generated: nat, entries: map<string, Dir>, ms: seq<Manifest>, blobs: map<string, Data>,
                                 output: map<string, Data>)
    requires Sensible(c, w, e) && AllProper(inputs) && Proper(x)
    requires FromHistory(c, BuildsOf(w, e, inputs), entries)
    requires ReplayOf(c, BuildOf(w, e, x), wanted, generated, entries, ms, blobs)
    ensures var out := Written(output, blobs, AllFiles(ms));
      && FreshCopies(out, BuildOf(w, e, x))
      && (Settled(e, inputs, x) ==> Fresh(out, BuildOf(w, e, x), wanted, generated))
      && (forall i :: 0 <= i < generated ==> GivenEarlier(c, w, e, inputs, x, wanted[i], entries, out))
  {
    hide FromHistory, ManifestsOf, Replayable, PlanFits, Written, AllFiles, BuildOf, BuildsOf, Proper, GivenBy,
         StoredBy, CollisionFree, OwnPaths, KeysDetermine, CopyKeysDetermine, Settled;
    Injective(c, w, e);
    CopiesDetermined(w, e, inputs, x);
    if Settled(e, inputs, x) { SettledDetermines(w, e, inputs, x); }
    HitFresh(c, BuildsOf(w, e, inputs), BuildOf(w, e, x), wanted, generated, entries, ms, blobs, output);
    forall i | 0 <= i < generated
      ensures GivenEarlier(c, w, e, inputs, x, wanted[i], entries, Written(output, blobs, AllFiles(ms)))
    {
      var n := HitGiven(c, w, e, inputs, x, wanted, generated, entries, ms, blobs, output, i);
    }
  }

  // ----- a compile that is repeated -----

  /** What compiles write passes the checks of a replay. */
  ghost predicate Safe(c: Setting, e: Emitter, inputs: seq<Input>)
  {
    && (forall digest :: c.safeBlob(c.blobPath(digest)))
    && (forall identity, p, closure, path :: path in e.paths(identity, p, closure) ==> c.safeOutput(path))
    && (forall n, i, k :: 0 <= n < |inputs| && 0 <= i < |inputs[n].plan| && 0 <= k < |inputs[n].plan[i].files| ==>
          c.safeOutput("@goscript/" + inputs[n].plan[i].files[k].0))
  }

  /** An entry under the key of a generated package is that package's. */
  lemma {:induction false} EntryFits(c: Setting, w: World, e: Emitter, inputs: seq<Input>, x: Input,
                                     entries: map<string, Dir>, p: string)
    returns (n: nat)
    requires Sensible(c, w, e) && AllProper(inputs) && Proper(x) && FromHistory(c, BuildsOf(w, e, inputs), entries)
    requires p in x.generated && KeyOf(w, x, p) in entries
    ensures n < |inputs| && StoredBy(c, BuildOf(w, e, inputs[n]), KeyOf(w, x, p), entries[KeyOf(w, x, p)])
    ensures entries[KeyOf(w, x, p)].text.m.package == p && p in inputs[n].generated && SameSources(inputs[n], x, p)
  {
    hide CollisionFree, OwnPaths, KeyOf, BuildOf, Acyclic, Recorded, PathRecorded, SameSources, Describes, Lists,
         PlainKeys;
    var k, builds := KeyOf(w, x, p), BuildsOf(w, e, inputs);
    n :| 0 <= n < |builds| && (StoredBy(c, builds[n], k, entries[k]) || CopiedBy(c, builds[n], k, entries[k]));
    if CopiedBy(c, builds[n], k, entries[k]) {
      var i :| 0 <= i < |builds[n].plan| && builds[n].plan[i].key == k;
      NotCopied(w, e, inputs[n], x, p, i);
      assert false;
    }
    var q := entries[k].text.m.package;
    BuildKeys(w, e, inputs[n], q);
    KeysExactly(w, inputs[n], x, q, p);
  }

  lemma {:induction false} NotCopied(w: World, e: Emitter, a: Input, x: Input, p: string, i: nat)
    requires CollisionFree(w) && Proper(a) && Proper(x) && i < |BuildOf(w, e, a).plan|
    ensures KeyOf(w, x, p) != BuildOf(w, e, a).plan[i].key
  {
    hide CollisionFree, GeneratedKey, CopiedKey, Emitted, NodeDigest, Acyclic, Recorded, PathRecorded, PlainKeys;
    KindsApart(w, x.identity, NodeDigest(w, x.graph, x.rank, p), a.identity, a.plan[i].package,
               Digests(w.hash, a.plan[i].files));
  }

  /** An entry under the key of a copied package is that package's. */
  lemma {:induction false} CopyFits(c: Setting, w: World, e: Emitter, inputs: seq<Input>, x: Input,
                                    entries: map<string, Dir>, j: nat)
    returns (n: nat, i: nat)
    requires Sensible(c, w, e) && AllProper(inputs) && Proper(x) && FromHistory(c, BuildsOf(w, e, inputs), entries)
    requires j < |x.plan| && BuildOf(w, e, x).plan[j].key in entries
    ensures var b, k := BuildOf(w, e, x), BuildOf(w, e, x).plan[j].key;
      n < |inputs| && i < |inputs[n].plan| && CopiedBy(c, BuildOf(w, e, inputs[n]), k, entries[k]) &&
      entries[k].text.m.package == x.plan[j].package &&
      Lists(c, entries[k].text.m.files, Artifacts(inputs[n].plan[i].files))
  {
    hide CollisionFree, OwnPaths, KeyOf, Emitted, Acyclic, Recorded, PathRecorded, Describes, Lists, PlainKeys,
         CopiedKey;
    var k, builds := BuildOf(w, e, x).plan[j].key, BuildsOf(w, e, inputs);
    n :| 0 <= n < |builds| && (StoredBy(c, builds[n], k, entries[k]) || CopiedBy(c, builds[n], k, entries[k]));
    if StoredBy(c, builds[n], k, entries[k]) {
      BuildKeys(w, e, inputs[n], entries[k].text.m.package);
      NotCopied(w, e, x, inputs[n], entries[k].text.m.package, j);
      assert false;
    }
    var m := entries[k].text.m;
    i :| 0 <= i < |builds[n].plan| && builds[n].plan[i].package == m.package && builds[n].plan[i].key == k &&
      Lists(c, m.files, builds[n].plan[i].files);
    var o, u := inputs[n].plan[i], x.plan[j];
    CopiedKeySound(w, inputs[n].identity, x.identity, o.package, u.package, Digests(w.hash, o.files),
                   Digests(w.hash, u.files));
  }

  /** Entries with their blobs can be replayed. */
  lemma {:induction false} EntriesReplayable(cache: ArtifactCache, w: World, e: Emitter, inputs: seq<Input>, x: Input,
                                             nodes: seq<GraphNode>)
    requires Sensible(cache.c, w, e) && AllProper(inputs) && Proper(x)
    requires FromHistory(cache.c, BuildsOf(w, e, inputs), cache.entries)
    requires cache.Sound() && Safe(cache.c, e, inputs)
    requires forall n ::
      n in nodes && !n.override && n.package in x.generated ==> KeyOf(w, x, n.package) in cache.entries
    requires forall i :: 0 <= i < |x.plan| ==> BuildOf(w, e, x).plan[i].key in cache.entries
    ensures Cached(cache, BuildOf(w, e, x), nodes)
  {
    hide Sensible, FromHistory, BuildsOf, BuildOf, KeyOf, Proper, Safe, CopyOf;
    var c, b := cache.c, BuildOf(w, e, x);
    forall n | n in nodes && !n.override && n.package in b.keys
      ensures cache.AllThere(Entry(b.keys[n.package], GENERATED, n.package))
    {
      BuildKeys(w, e, x, n.package);
      var o := EntryFits(c, w, e, inputs, x, cache.entries, n.package);
      StoredReplayable(cache, w, e, inputs, o, KeyOf(w, x, n.package));
    }
    PlanLength(w, e, x);
    forall j | 0 <= j < |b.plan| ensures cache.AllThere(Entry(b.plan[j].key, COPIED, b.plan[j].package)) {
      var o, i := CopyFits(c, w, e, inputs, x, cache.entries, j);
      CopyReplayable(cache, e, inputs, o, i, b.plan[j].key);
    }
  }

  lemma {:induction false} PlanLength(w: World, e: Emitter, x: Input)
    requires Proper(x)
    ensures |BuildOf(w, e, x).plan| == |x.plan| &&
            forall j :: 0 <= j < |x.plan| ==> BuildOf(w, e, x).plan[j].package == x.plan[j].package
  {
  }

  lemma {:induction false} StoredReplayable(cache: ArtifactCache, w: World, e: Emitter, inputs: seq<Input>, n: nat,
                                            k: string)
    requires cache.Sound() && Safe(cache.c, e, inputs) && n < |inputs| && Proper(inputs[n])
    requires k in cache.entries && StoredBy(cache.c, BuildOf(w, e, inputs[n]), k, cache.entries[k])
    ensures Replayable(cache.c, cache.blobs, cache.entries[k].text.m.files)
  {
    hide KeyOf, ViewOf, Proper, ClosureOf;
    var x, m := inputs[n], cache.entries[k].text.m;
    forall f | f in m.files ensures cache.c.safeOutput(f.path) && cache.c.safeBlob(f.blob) {
      assert f.path in AllPaths(e, x);
      assert f.path in PathsOf(e, x, OwnerOf(e, x, f.path));
    }
  }

  lemma {:induction false} CopyReplayable(cache: ArtifactCache, e: Emitter, inputs: seq<Input>, n: nat, i: nat,
                                          k: string)
    requires cache.Sound() && Safe(cache.c, e, inputs) && n < |inputs| && i < |inputs[n].plan|
    requires k in cache.entries && cache.entries[k].text.Whole?
    requires Lists(cache.c, cache.entries[k].text.m.files, Artifacts(inputs[n].plan[i].files))
    ensures Replayable(cache.c, cache.blobs, cache.entries[k].text.m.files)
  {
    var m, files := cache.entries[k].text.m, inputs[n].plan[i].files;
    forall f | f in m.files ensures cache.c.safeOutput(f.path) && cache.c.safeBlob(f.blob) {
      var y :| 0 <= y < |Artifacts(files)| && f == FileOf(cache.c, Artifacts(files)[y].0, Artifacts(files)[y].1);
      assert f.path == "@goscript/" + files[y].0;
    }
  }

  /** Everything that is asked for is compiled and has files. */
  ghost predicate Complete(x: Input, nodes: seq<GraphNode>, packages: seq<string>)
  {
    (forall n :: n in nodes && !n.override ==> n.package in x.generated && n.package in packages) &&
    forall i :: 0 <= i < |x.plan| ==> x.plan[i].files != []
  }

  lemma {:induction false} PackageHasFiles(w: World, e: Emitter, x: Input, p: string)
    requires OwnPaths(e) && Proper(x) && p in x.generated
    ensures HasFiles(BuildOf(w, e, x).emitted, p)
  {
    hide KeyOf, ViewOf, Proper, ClosureOf, OwnPath;
    SomePath(e, x, p);
    var path :| path in PathsOf(e, x, p);
    assert path in AllPaths(e, x) && OwnPath(p, path);
    assert path in Emitted(e, x) && BuildOf(w, e, x).emitted == Emitted(e, x);
    OwnUnder(p, path);
  }

  lemma {:induction false} OwnUnder(p: string, path: string)
    requires OwnPath(p, path)
    ensures Prefix(p) <= path
  {
  }

  lemma {:induction false} CopyHasFiles(w: World, e: Emitter, x: Input, i: nat)
    requires Proper(x) && i < |x.plan| && x.plan[i].files != []
    ensures i < |BuildOf(w, e, x).plan| && BuildOf(w, e, x).plan[i].files != []
  {
    hide Proper, KeyOf, Emitted, CopiedKey;
    assert BuildOf(w, e, x).plan[i] == CopyOf(w, x, x.plan[i]);
  }

  /** The entries that a compile without a failure has made are all that it asks for. */
  lemma {:induction false} AllMade(w: World, e: Emitter, x: Input, entries: map<string, Dir>, nodes: seq<GraphNode>,
                                   packages: seq<string>)
    requires OwnPaths(e) && Proper(x) && Complete(x, nodes, packages)
    requires EntriesMade(entries, BuildOf(w, e, x), nodes, packages)
    ensures forall n :: n in nodes && !n.override && n.package in x.generated ==> KeyOf(w, x, n.package) in entries
    ensures forall i :: 0 <= i < |x.plan| ==> BuildOf(w, e, x).plan[i].key in entries
  {
    hide OwnPaths, Proper, KeyOf, HasFiles, Emitted, CopiedKey;
    forall n | n in nodes && !n.override && n.package in x.generated ensures KeyOf(w, x, n.package) in entries {
      BuildKeys(w, e, x, n.package);
      PackageHasFiles(w, e, x, n.package);
    }
    PlanLength(w, e, x);
    forall i | 0 <= i < |x.plan| ensures BuildOf(w, e, x).plan[i].key in entries { CopyHasFiles(w, e, x, i); }
  }

  /** What each compile of the input needs. */
  ghost predicate Asked(w: World, e: Emitter, x: Input, b: Build, nodes: seq<GraphNode>, packages: seq<string>)
  {
    && Proper(x) && b == BuildOf(w, e, x) && PlanFits(b) && PlannedOnce(b) && Complete(x, nodes, packages)
    && (forall i, j :: 0 <= i < j < |nodes| ==> Leq(nodes[i].package, nodes[j].package))
    && ((exists n :: n in nodes && !n.override) || x.plan != [])
  }

  /** Without entries nothing is replayed, and the output is as it was but for what is written and copied. */
  lemma {:induction false} ColdOutput(b: Build, wanted: seq<Entry>, tried: seq<File>,
                                      before: map<string, Data>, blobs: map<string, Data>, hit: bool)
    requires Tried(wanted, map[], tried, hit)
    ensures hit ==> wanted == []
    ensures !hit ==> Written(before, blobs, tried) == before
  {
    hide Unplanned;
    if hit {
      var ms :| |ms| == |wanted| && ManifestsOf(wanted[..|ms|], map[], ms);
      if wanted != [] { FirstThere(wanted[..|ms|], map[], ms); }
    } else {
      NothingTried(wanted, map[], tried);
    }
  }

  /** When no operation fails, a compile leaves everything that the next one needs for a hit. */
  method CompileCaches(cache: ArtifactCache, b: Build, nodes: seq<GraphNode>, packages: seq<string>,
                       ghost w: World, ghost e: Emitter, ghost inputs: seq<Input>, ghost x: Input)
    returns (outcome: Outcome, ghost inputs1: seq<Input>)
    requires cache.Valid() && Sensible(cache.c, w, e) && DistinctBlobs(cache.c) && AllProper(inputs)
    requires Asked(w, e, x, b, nodes, packages)
    requires FromHistory(cache.c, BuildsOf(w, e, inputs), cache.entries) && Safe(cache.c, e, inputs + [x])
    modifies cache`blobs, cache`entries, cache`output, cache`failed
    ensures cache.Valid() && AllProper(inputs1) && FromHistory(cache.c, BuildsOf(w, e, inputs1), cache.entries)
    ensures inputs1 == inputs || inputs1 == inputs + [x]
    ensures forall k :: k in old(cache.entries) ==> k in cache.entries && cache.entries[k] == old(cache.entries)[k]
    ensures outcome == Replayed ==> forall n :: n in nodes && !n.override ==>
      n.package in x.generated &&
      GivenEarlier(cache.c, w, e, inputs, x, Entry(KeyOf(w, x, n.package), GENERATED, n.package), cache.entries,
                   cache.output)
    ensures (old(cache.failed) ==> cache.failed) && (!cache.failed ==> outcome != Failed)
    ensures !cache.failed && old(cache.Sound()) ==> cache.Sound() && Cached(cache, b, nodes)
    ensures !cache.failed && old(Cached(cache, b, nodes)) ==> outcome == Replayed
    ensures !cache.failed && old(cache.entries) == map[] ==>
      OfThis(cache.c, b, cache.entries) && cache.output == Copied(old(cache.output) + b.emitted, b.plan)
    ensures outcome == Replayed && OfThis(cache.c, b, old(cache.entries)) ==>
      forall start :: old(cache.output) == Copied(start + b.emitted, b.plan) ==> cache.output == old(cache.output)
  {
    hide FromHistory, Safe, BuildsOf, CollisionFree, OwnPaths, Proper, KeyOf, GivenEarlier, Cached, EntriesMade, Fresh,
         FreshCopies, Settled, PlanFits, PlannedOnce, DistinctBlobs, InOrder;
    forall p ensures p in b.keys <==> p in x.generated { BuildKeys(w, e, x, p); }
    forall p | p in x.generated ensures b.keys[p] == KeyOf(w, x, p) { BuildKeys(w, e, x, p); }
    ghost var wanted, generated, tried;
    outcome, wanted, generated, inputs1, tried := Compile(cache, b, nodes, packages, w, e, inputs, x);
    forall n | outcome == Replayed && n in nodes && !n.override
      ensures GivenEarlier(cache.c, w, e, inputs, x, Entry(KeyOf(w, x, n.package), GENERATED, n.package), cache.entries,
                           cache.output)
    {
      var i :| 0 <= i < generated && wanted[i] == Entry(b.keys[n.package], GENERATED, n.package);
    }
    if !cache.failed && outcome == Compiled && cache.Sound() {
      AllMade(w, e, x, cache.entries, nodes, packages);
      EntriesReplayable(cache, w, e, inputs + [x], x, nodes);
    }
    if old(cache.entries) == map[] {
      ColdOutput(b, wanted, tried, old(cache.output), old(cache.blobs), outcome == Replayed);
    }
    forall start | outcome == Replayed && OfThis(cache.c, b, old(cache.entries)) &&
      old(cache.output) == Copied(start + b.emitted, b.plan)
      ensures cache.output == old(cache.output)
    {
      Injective(cache.c, w, e);
      BuildOwned(w, e, x);
      ReplayKeepsOutput(cache.c, b, wanted, generated, old(cache.entries), old(cache.blobs), start, tried);
    }
  }

  lemma {:induction false} SafeFor(c: Setting, e: Emitter, all: seq<Input>, some: seq<Input>)
    requires Safe(c, e, all) && forall x :: x in some ==> x in all
    ensures Safe(c, e, some)
  {
    forall n | 0 <= n < |some| ensures exists m :: 0 <= m < |all| && all[m] == some[n] { assert some[n] in some; }
  }

  /** Compiling the same twice: the second is a hit, and when nothing was cached before the first, it
      leaves the output as the first has written it. */
  method CompileTwice(cache: ArtifactCache, b: Build, nodes: seq<GraphNode>, packages: seq<string>,
                      ghost w: World, ghost e: Emitter, ghost inputs: seq<Input>, ghost x: Input)
    returns (second: Outcome)
    requires cache.Valid() && Sensible(cache.c, w, e) && DistinctBlobs(cache.c) && AllProper(inputs)
    requires Asked(w, e, x, b, nodes, packages)
    requires FromHistory(cache.c, BuildsOf(w, e, inputs), cache.entries) && Safe(cache.c, e, inputs + [x])
    modifies cache`blobs, cache`entries, cache`output, cache`failed
    ensures !cache.failed && old(cache.Sound()) ==> second == Replayed
    ensures !cache.failed && old(cache.Sound()) && old(cache.entries) == map[] ==>
      cache.output == Copied(old(cache.output) + b.emitted, b.plan)
  {
    hide FromHistory, BuildsOf, Sensible, Asked, GivenEarlier, Cached, DistinctBlobs, Safe, OfThis, Copied;
    ghost var inputs1, inputs2;
    var first;
    first, inputs1 := CompileCaches(cache, b, nodes, packages, w, e, inputs, x);
    SafeFor(cache.c, e, inputs + [x], inputs1 + [x]);
    second, inputs2 := CompileCaches(cache, b, nodes, packages, w, e, inputs1, x);
  }

  // ----- a stale hit -----

  /** Two builds that describe the same entry write the same to the files of its package. */
  lemma {:induction false} SameStored(c: Setting, a: Build, b: Build, key: string, dir: Dir, path: string)
    requires (forall d, f :: c.hash(d) == c.hash(f) ==> d == f) && StoredBy(c, a, key, dir) && StoredBy(c, b, key, dir)
    requires OwnPath(dir.text.m.package, path) && path in a.emitted && path in b.emitted
    ensures a.emitted[path] == b.emitted[path]
  {
    OwnUnder(dir.text.m.package, path);
    var f := FileOf(c, path, a.emitted[path]);
    assert f in dir.text.m.files;
  }

  /** What a hit gives the package is what `a` wrote, when `a` stored the entry. */
  lemma {:induction false} GivenByFirst(c: Setting, w: World, e: Emitter, a: Input, inputs: seq<Input>, x: Input,
                                        p: string, entries: map<string, Dir>, output: map<string, Data>)
    requires Sensible(c, w, e) && AllProper(inputs) && Proper(a) && Proper(x) && p in a.generated
    requires SameSources(a, x, p)
    requires KeyOf(w, x, p) in entries && StoredBy(c, BuildOf(w, e, a), KeyOf(w, x, p), entries[KeyOf(w, x, p)])
    requires entries[KeyOf(w, x, p)].text.m.package == p
    requires GivenEarlier(c, w, e, inputs, x, Entry(KeyOf(w, x, p), GENERATED, p), entries, output)
    ensures GivenBy(e, a, x, p, output)
  {
    hide CollisionFree, OwnPaths, Proper, KeyOf, BuildOf, SameSources, StoredBy, ViewOf, OwnPath;
    var k := KeyOf(w, x, p);
    var n :| 0 <= n < |inputs| && GivenBy(e, inputs[n], x, p, output) &&
      StoredBy(c, BuildOf(w, e, inputs[n]), k, entries[k]);
    Injective(c, w, e);
    EmittedAs(w, e, a, x, p);
    EmittedAs(w, e, inputs[n], x, p);
    forall path | path in PathsOf(e, x, p) ensures path in output && output[path] == e.text(ViewOf(e, a, p), path) {
      SameStored(c, BuildOf(w, e, a), BuildOf(w, e, inputs[n]), k, entries[k], path);
    }
  }

  /** After the first compile the entry of a package is the one of that compile. */
  lemma {:induction false} FirstEntry(cache: ArtifactCache, w: World, e: Emitter, inputs: seq<Input>, a: Input,
                                      b: Build, nodes: seq<GraphNode>, x: Input, p: string)
    requires Sensible(cache.c, w, e) && Proper(a) && Proper(x) && b == BuildOf(w, e, a) && inputs == [] + [a]
    requires p in a.generated && p in x.generated && SameSources(a, x, p)
    requires FromHistory(cache.c, BuildsOf(w, e, inputs), cache.entries) && Cached(cache, b, nodes)
    requires GraphNode(p, false) in nodes
    ensures KeyOf(w, x, p) == KeyOf(w, a, p)
    ensures var k := KeyOf(w, x, p);
      k in cache.entries && StoredBy(cache.c, BuildOf(w, e, a), k, cache.entries[k]) &&
      cache.entries[k].text.m.package == p
  {
    hide CollisionFree, OwnPaths, KeyOf, BuildOf, SameSources, StoredBy, FromHistory, BuildsOf, Acyclic, Recorded,
         PathRecorded, PlainKeys;
    KeysExactly(w, a, x, p, p);
    BuildKeys(w, e, a, p);
    assert cache.AllThere(Entry(b.keys[p], GENERATED, p));
    var n := EntryFits(cache.c, w, e, inputs, a, cache.entries, p);
  }

  lemma {:induction false} NoHistory(c: Setting, w: World, e: Emitter)
    ensures FromHistory(c, BuildsOf(w, e, []), map[])
  {
  }

  /** Without a first compile there is no entry. */
  lemma {:induction false} SomeHistory(cache: ArtifactCache, w: World, e: Emitter, a: Input, b: Build,
                                       nodes: seq<GraphNode>, p: string)
    requires Proper(a) && b == BuildOf(w, e, a) && p in a.generated && Cached(cache, b, nodes)
    requires GraphNode(p, false) in nodes
    ensures !FromHistory(cache.c, BuildsOf(w, e, []), cache.entries)
  {
    hide KeyOf, Emitted;
    BuildKeys(w, e, a, p);
    assert cache.AllThere(Entry(b.keys[p], GENERATED, p));
  }

  /** Compile `a`, change some packages, compile, and compile again. When no operation fails the
      last is a hit, and each package whose sources did not change is given the files of `a`:
      they are fresh if and only if the change makes no difference to them. */
  method CompileChanged(cache: ArtifactCache, b0: Build, nodes0: seq<GraphNode>, packages0: seq<string>, b: Build,
                        nodes: seq<GraphNode>, packages: seq<string>, ghost w: World, ghost e: Emitter, ghost a: Input,
                        ghost x: Input)
    returns (last: Outcome)
    requires cache.Valid() && Sensible(cache.c, w, e) && DistinctBlobs(cache.c) && cache.entries == map[]
    requires Asked(w, e, a, b0, nodes0, packages0) && Asked(w, e, x, b, nodes, packages) && Safe(cache.c, e, [a, x])
    modifies cache`blobs, cache`entries, cache`output, cache`failed
    ensures !cache.failed && old(cache.Sound()) ==> last == Replayed
    ensures !cache.failed && old(cache.Sound()) ==> forall p ::
      GraphNode(p, false) in nodes0 && GraphNode(p, false) in nodes && SameSources(a, x, p) ==>
        GivenBy(e, a, x, p, cache.output) && (OwnFresh(e, x, p, cache.output) <==> SameText(e, a, x, p))
  {
    hide FromHistory, BuildsOf, Sensible, GivenEarlier, Cached, DistinctBlobs, Safe, SameSources, GivenBy, OwnFresh,
         SameText, Proper, PlanFits, PlannedOnce, StoredBy, KeyOf;
    ghost var inputs1, inputs2, inputs3;
    var first, second;
    NoHistory(cache.c, w, e);
    SafeFor(cache.c, e, [a, x], [] + [a]);
    first, inputs1 := CompileCaches(cache, b0, nodes0, packages0, w, e, [], a);
    ghost var entries := cache.entries;
    ghost var fine := !cache.failed && old(cache.Sound());
    forall p | fine && GraphNode(p, false) in nodes0 && GraphNode(p, false) in nodes && SameSources(a, x, p)
      ensures var k := KeyOf(w, x, p);
        k in entries && StoredBy(cache.c, BuildOf(w, e, a), k, entries[k]) && entries[k].text.m.package == p
    {
      SomeHistory(cache, w, e, a, b0, nodes0, p);
      FirstEntry(cache, w, e, inputs1, a, b0, nodes0, x, p);
    }
    SafeFor(cache.c, e, [a, x], inputs1 + [x]);
    second, inputs2 := CompileCaches(cache, b, nodes, packages, w, e, inputs1, x);
    SafeFor(cache.c, e, [a, x], inputs2 + [x]);
    last, inputs3 := CompileCaches(cache, b, nodes, packages, w, e, inputs2, x);
    forall p | !cache.failed && old(cache.Sound()) && GraphNode(p, false) in nodes0 && GraphNode(p, false) in nodes &&
      SameSources(a, x, p)
      ensures GivenBy(e, a, x, p, cache.output) && (OwnFresh(e, x, p, cache.output) <==> SameText(e, a, x, p))
    {
      assert KeyOf(w, x, p) in entries;
      GivenByFirst(cache.c, w, e, a, inputs2, x, p, cache.entries, cache.output);
      GivenFreshExactly(e, a, x, p, cache.output);
    }
  }

  // ----- what makes a hit stale -----

  /** The names of what is async in a program: functions, and methods of interfaces. */
  ghost function AsyncNames(p: AsyncFacts.Program, f: AsyncFacts.Facts): set<string>
  {
    (set fn | fn in p.canon && AsyncFacts.FnAsync(p, f, fn) :: p.name(fn)) + (set m | m in f.methods :: p.name(m))
  }

  /** The names belong to objects in `c` only. */
  ghost predicate NamesIn(p: AsyncFacts.Program, names: set<string>, c: set<AsyncFacts.Fn>)
  {
    "" !in names && forall fn :: p.name(fn) in names ==> fn in c
  }

  lemma {:induction false} NamesWithin(p: AsyncFacts.Program, f: AsyncFacts.Facts, q: AsyncFacts.Program,
                                       g: AsyncFacts.Facts, c: set<AsyncFacts.Fn>, names: set<string>)
    requires AsyncLocality.Local(p, c) && AsyncLocality.Agree(p, q, c) && AsyncLocality.SameOn(p, f, q, g, c)
    requires NamesIn(p, names, c)
    ensures AsyncNames(p, f) * names <= AsyncNames(q, g) * names
  {
    hide AsyncFacts.MethodAsync;
    forall n | n in AsyncNames(p, f) * names ensures n in AsyncNames(q, g) {
      var fn :| p.name(fn) == n && ((fn in p.canon && AsyncFacts.FnAsync(p, f, fn)) || fn in f.methods);
      if fn in f.methods { AsyncFacts.MethodMarked(p, f, fn); }
      assert q.name(fn) == n;
      if AsyncFacts.MethodAsync(p, f, fn) {
        AsyncFacts.MarkedByName(q, g, fn);
      } else {
        assert AsyncFacts.BodyAsync(q, g, fn);
      }
    }
  }

  /** A package whose functions nothing outside its import closure can make async sees the same
      facts in two compiles with the same closure. */
  lemma {:induction false} LocalFactsSettle(e: Emitter, a: Input, x: Input, pkg: string, c: set<AsyncFacts.Fn>,
                              p: AsyncFacts.Program, f0: AsyncFacts.Facts, s: AsyncFacts.Facts, f: AsyncFacts.Facts,
                              q: AsyncFacts.Program, g0: AsyncFacts.Facts, t: AsyncFacts.Facts, g: AsyncFacts.Facts)
    requires SameSources(a, x, pkg) && a.reflects == x.reflects && a.async == AsyncNames(p, f)
    requires x.async == AsyncNames(q, g)
    requires AsyncFacts.Inferred(p, f0, s, f) && AsyncFacts.Inferred(q, g0, t, g)
    requires AsyncLocality.Local(p, c) && AsyncLocality.Local(q, c) && AsyncLocality.Agree(p, q, c)
    requires AsyncLocality.SameOn(p, f0, q, g0, c)
    requires AsyncFacts.NoAliases(p) && AsyncFacts.NoAliases(q) && AsyncFacts.Transitive(p) && AsyncFacts.Transitive(q)
    requires NamesIn(p, e.names(ClosureOf(a.graph, pkg)), c) && NamesIn(q, e.names(ClosureOf(a.graph, pkg)), c)
    ensures SameFacts(e, a, x, pkg)
  {
    hide AsyncFacts.Inferred, AsyncLocality.Local, AsyncLocality.Agree, AsyncLocality.SameOn, AsyncFacts.NoAliases,
         AsyncFacts.Transitive, NamesIn, AsyncNames, ClosureOf;
    var names := e.names(ClosureOf(a.graph, pkg));
    AsyncLocality.SameInference(p, f0, s, f, q, g0, t, g, c);
    AsyncLocality.AgreeBack(p, q, c);
    AsyncLocality.SameOnBack(p, f, q, g, c);
    NamesWithin(p, f, q, g, c, names);
    NamesWithin(q, g, p, f, c, names);
  }

  /** Package `p` declares the function p.f; package `q` imports it. */
  function Caller(version: string): Graph
  {
    map["p" := Node([Field("path", "p"), Field("go-file", "p.go 1")], []),
        "q" := Node([Field("path", "q"), Field("go-file", version)], ["p"])]
  }

  function Depth(p: string): nat
  {
    if p == "p" then 0 else 1
  }

  function InputOf(version: string, async: set<string>, reflects: bool): Input
  {
    Input([], Caller(version), Depth, {"p", "q"}, async, reflects, [])
  }

  lemma {:induction false} OneReached(version: string, q: string)
    ensures Reaches(Caller(version), "p", q) <==> q == "p"
  {
    ReachesItself(Caller(version), "p");
    if Reaches(Caller(version), "p", q) && q != "p" { ReachesFrom(Caller(version), "p", q); }
  }

  lemma {:induction false} CallerProper(version: string, async: set<string>, reflects: bool)
    ensures Proper(InputOf(version, async, reflects))
  {
    var x := InputOf(version, async, reflects);
    assert x.graph.Keys == {"p", "q"};
    assert Acyclic(x.graph, x.rank);
    CallerRecorded(version);
  }

  lemma {:induction false} CallerRecorded(version: string)
    ensures Recorded(Caller(version)) && PathRecorded(Caller(version))
  {
    var g := Caller(version);
    assert Field("path", "p") == g["p"].recorded[0] && Field("path", "q") == g["q"].recorded[0];
    assert "go-file"[0] == 'g' && "path"[0] == 'p' && "import"[0] == 'i' && "import-digest"[0] == 'i';
  }

  lemma {:induction false} UnchangedSources(v: string, u: string, a: set<string>, b: set<string>, r: bool, t: bool)
    ensures SameSources(InputOf(v, a, r), InputOf(u, b, t), "p")
  {
    hide Reaches;
    forall q ensures q in ClosureOf(Caller(v), "p") <==> q == "p" { OneReached(v, q); }
    forall q ensures q in ClosureOf(Caller(u), "p") <==> q == "p" { OneReached(u, q); }
    assert ClosureOf(Caller(v), "p") == ClosureOf(Caller(u), "p");
  }

  /** A change of `q` alone, by which it passes p.f something that needs await: the key of `p`
      stays the same, but p.f was synchronous before and is async after it. */
  lemma {:induction false} CallerChangesFacts(e: Emitter, s0: AsyncFacts.Facts, f0: AsyncFacts.Facts,
                                              s1: AsyncFacts.Facts, f1: AsyncFacts.Facts)
    requires AsyncFacts.Inferred(AsyncFacts.Passing({}), AsyncFacts.Facts({}, {}), s0, f0)
    requires AsyncFacts.Inferred(AsyncFacts.Passing({AsyncFacts.CallSite(0, {}, true)}), AsyncFacts.Facts({}, {}), s1,
                                 f1)
    requires forall closure :: "p.f" in e.names(closure)
    ensures var a, x := InputOf("q.go 1", AsyncNames(AsyncFacts.Passing({}), f0), false),
                        InputOf("q.go 2", AsyncNames(AsyncFacts.Passing({AsyncFacts.CallSite(0, {}, true)}), f1),
                                false);
      Proper(a) && Proper(x) && SameSources(a, x, "p") && !SameFacts(e, a, x, "p")
  {
    hide SameSources, Proper, AsyncFacts.Inferred, ClosureOf, AsyncFacts.FnAsync, Caller;
    var p0, p1 := AsyncFacts.Passing({}), AsyncFacts.Passing({AsyncFacts.CallSite(0, {}, true)});
    CallerProper("q.go 1", AsyncNames(p0, f0), false);
    CallerProper("q.go 2", AsyncNames(p1, f1), false);
    UnchangedSources("q.go 1", "q.go 2", AsyncNames(p0, f0), AsyncNames(p1, f1), false, false);
    AsyncFacts.PassingInferred(s0, f0, s1, f1);
    assert p1.name(0) == "p.f" && 0 in p1.canon && "p.f" in AsyncNames(p1, f1);
    assert "p.f" !in AsyncNames(p0, f0) by {
      forall m | m in f0.methods ensures false { AsyncFacts.MethodMarked(p0, f0, m); }
    }
    var a, x := InputOf("q.go 1", AsyncNames(p0, f0), false), InputOf("q.go 2", AsyncNames(p1, f1), false);
    assert "p.f" in x.async * e.names(ClosureOf(x.graph, "p"));
    assert "p.f" !in a.async * e.names(ClosureOf(a.graph, "p"));
  }

  /** So does a change by which some package leads to `reflect`. */
  lemma {:induction false} ReflectChangesFacts(e: Emitter, async: set<string>)
    ensures var a, x := InputOf("q.go 1", async, false), InputOf("q.go 2", async, true);
      Proper(a) && Proper(x) && SameSources(a, x, "p") && !SameFacts(e, a, x, "p")
  {
    hide SameSources, Proper, ClosureOf;
    CallerProper("q.go 1", async, false);
    CallerProper("q.go 2", async, true);
    UnchangedSources("q.go 1", "q.go 2", async, async, false, true);
  }
}
