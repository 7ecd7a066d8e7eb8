/** Storing and replaying compiled packages (compiler/compiler-cache.go), with every file
    operation free to fail, and when a replay agrees with a fresh compile. */
module CacheReplay {
  import opened Ordering
  import opened CacheKeys
  import opened CacheRuns

  // ----- paths -----

  /** Where the files of a package and of the packages below it lie. */
  function Prefix(package: string): string
  {
    "@goscript/" + package + "/"
  }

  /** The path of a file that lies directly in the package. */
  ghost predicate OwnPath(package: string, path: string)
  {
    exists name :: path == Prefix(package) + name && '/' !in name
  }

  /** A package whose prefix covers an own file of `p` is `p` or a path in front of it. */
  lemma {:induction false} CoversOwn(q: string, p: string, path: string)
    requires OwnPath(p, path) && Prefix(q) <= path
    ensures q == p || q < p
  {
    var name :| path == Prefix(p) + name && '/' !in name;
    var k := |Prefix(q)| - 1;
    assert path[k] == Prefix(q)[k] == '/';
    if k >= |Prefix(p)| { NoSlash(p, name, k); }
    assert q == path[10..10 + |q|] && p == path[10..10 + |p|];
  }

  lemma {:induction false} NoSlash(p: string, name: string, k: int)
    requires '/' !in name && |Prefix(p)| <= k < |Prefix(p) + name|
    ensures (Prefix(p) + name)[k] != '/'
  {
    assert (Prefix(p) + name)[k] in name;
  }

  lemma {:induction false} LaterCovers(q: string, p: string, path: string)
    requires OwnPath(p, path) && Prefix(q) <= path && Leq(p, q)
    ensures q == p
  {
    CoversOwn(q, p, path);
    if q < p { PrefixFirst(q, p); }
  }

  // ----- what a replay leaves in the output -----

  /** The output after the files are written in order. */
  function Written(output: map<string, Data>, blobs: map<string, Data>, files: seq<File>): map<string, Data>
  {
    if files == [] then output
    else
      var f := files[|files| - 1];
      Written(output, blobs, files[..|files| - 1])[f.path := if f.blob in blobs then blobs[f.blob] else ""]
  }

  /** All files can be replayed. */
  ghost predicate Replayable(c: Setting, blobs: map<string, Data>, files: seq<File>)
  {
    forall f :: f in files ==>
      c.safeOutput(f.path) && c.safeBlob(f.blob) && f.blob in blobs && Matches(c, blobs[f.blob], f)
  }

  /** A path holds the data that every file from `x` on with that path stands for. */
  lemma {:induction false} LastWriter(output: map<string, Data>, blobs: map<string, Data>, files: seq<File>, x: nat,
                                      path: string, data: Data)
    requires x < |files| && files[x].path == path
    requires forall y ::
      x <= y < |files| && files[y].path == path ==> files[y].blob in blobs && blobs[files[y].blob] == data
    ensures path in Written(output, blobs, files) && Written(output, blobs, files)[path] == data
    decreases |files|
  {
    var n := |files| - 1;
    if x < n { LastWriter(output, blobs, files[..n], x, path, data); }
  }

  lemma {:induction false} WrittenConcat(output: map<string, Data>, blobs: map<string, Data>, a: seq<File>,
                                         b: seq<File>)
    ensures Written(output, blobs, a + b) == Written(Written(output, blobs, a), blobs, b)
    decreases |b|
  {
    if b == [] {
      assert a + b == a;
    } else {
      assert (a + b)[..|a + b| - 1] == a + b[..|b| - 1];
      WrittenConcat(output, blobs, a, b[..|b| - 1]);
    }
  }

  /** The path is in both outputs with the same data, or in neither. */
  ghost predicate SameAt(a: map<string, Data>, b: map<string, Data>, path: string)
  {
    if path in a then path in b && a[path] == b[path] else path !in b
  }

  /** Other paths stay as they are. */
  lemma {:induction false} WrittenBeside(output: map<string, Data>, blobs: map<string, Data>, files: seq<File>,
                                         path: string)
    requires forall f :: f in files ==> f.path != path
    ensures SameAt(output, Written(output, blobs, files), path)
  {
    if files != [] {
      var n := |files| - 1;
      WrittenBeside(output, blobs, files[..n], path);
      assert files[n] in files;
    }
  }

  // ----- the cache -----

  /** The files stand in the order of their paths. */
  ghost predicate ByPath(list: seq<File>)
  {
    forall i, j :: 0 <= i < j < |list| ==> Leq(list[i].path, list[j].path)
  }

  /** The manifest describes the files of the package and of the packages below it, in order. */
  ghost predicate Describes(c: Setting, m: Manifest, files: map<string, Data>)
  {
    && ByPath(m.files)
    && (forall f :: f in m.files ==>
        f.path in files && Prefix(m.package) <= f.path && f == FileOf(c, f.path, files[f.path]))
    && (forall p :: p in files && Prefix(m.package) <= p ==> FileOf(c, p, files[p]) in m.files)
  }

  /** Different data lies under different paths. */
  ghost predicate DistinctBlobs(c: Setting)
  {
    forall d, e :: c.blobPath(c.hash(d)) == c.blobPath(c.hash(e)) ==> d == e
  }

  /** The blobs of these files are there and match. */
  ghost predicate Holds(c: Setting, blobs: map<string, Data>, list: seq<File>)
  {
    forall f :: f in list ==> f.blob in blobs && Matches(c, blobs[f.blob], f)
  }

  /** The package has a file of its own or below it. */
  ghost predicate HasFiles(files: map<string, Data>, package: string)
  {
    exists p :: p in files && Prefix(package) <= p
  }

  /** An override package of a copy plan: its key, and its files with their contents. */
  datatype Copy = Copy(package: string, key: string, files: seq<(string, Data)>)

  /** The list describes these files and no others. */
  ghost predicate Lists(c: Setting, list: seq<File>, files: seq<(string, Data)>)
  {
    && (forall f :: f in list ==> exists x :: 0 <= x < |files| && f == FileOf(c, files[x].0, files[x].1))
    && (forall x :: 0 <= x < |files| ==> FileOf(c, files[x].0, files[x].1) in list)
  }

  lemma {:induction false} ListsMore(c: Setting, list: seq<File>, files: seq<(string, Data)>, i: nat)
    requires i < |files| && Lists(c, list, files[..i])
    ensures Lists(c, list + [FileOf(c, files[i].0, files[i].1)], files[..i + 1])
  {
    var f, more := FileOf(c, files[i].0, files[i].1), files[..i + 1];
    forall g | g in list + [f] ensures exists x :: 0 <= x < |more| && g == FileOf(c, more[x].0, more[x].1) {
      if g in list {
        var x :| 0 <= x < i && g == FileOf(c, files[..i][x].0, files[..i][x].1);
        assert more[x] == files[x];
      } else {
        assert more[i] == files[i];
      }
    }
    forall x | 0 <= x < |more| ensures FileOf(c, more[x].0, more[x].1) in list + [f] {
      if x < i { assert files[..i][x] == more[x]; }
    }
  }

  class ArtifactCache {
    const c: Setting
    var blobs: map<string, Data>
    var entries: map<string, Dir>
    var output: map<string, Data>
    /** Some file operation has failed. */
    ghost var failed: bool

    constructor (c: Setting)
      ensures this.c == c && Valid() && entries == map[] && Sound() && !failed
    {
      this.c := c;
      blobs, entries, output, failed := map[], map[], map[], false;
    }

    ghost predicate Valid()
      reads this
    {
      forall k :: k in entries ==>
        entries[k].complete && entries[k].text.Whole? && entries[k].text.m.key == k && entries[k].text.m.files != []
    }

    /** Each stored blob is the data of its digest, and the blobs of every entry are there. */
    ghost predicate Sound()
      reads this
    {
      (forall d :: c.blobPath(c.hash(d)) in blobs ==> blobs[c.blobPath(c.hash(d))] == d) &&
      forall k :: k in entries && entries[k].text.Whole? ==> Holds(c, blobs, entries[k].text.m.files)
    }

    /** A file operation, which succeeds or not. */
    method FileOperation() returns (ok: bool)
      modifies this`failed
      ensures failed == (old(failed) || !ok)
    {
      ok := *;
      failed := failed || !ok;
    }

    /** The path is returned even when the blob could not be stored. */
    method StoreBlob(data: Data) returns (rel: string)
      modifies this`blobs, this`failed
      ensures rel == c.blobPath(c.hash(data)) && (old(failed) ==> failed)
      ensures !failed ==> rel in blobs && (DistinctBlobs(c) && old(Sound()) ==> Sound() && blobs[rel] == data)
      ensures blobs == old(blobs) || (rel !in old(blobs) && blobs == old(blobs)[rel := data])
    {
      rel := c.blobPath(c.hash(data));
      if rel in blobs { return; }
      var made := FileOperation();
      if !made { return; }
      var written := FileOperation();
      if !written { return; }
      var renamed := FileOperation();
      if renamed { blobs := blobs[rel := data]; }
    }

    /** The directory of the entry appears whole or not at all, and never replaces another. */
    method StoreManifest(m: Manifest)
      requires Valid()
      modifies this`entries, this`failed
      ensures Valid() && (old(failed) ==> failed)
      ensures !failed && m.files != [] ==> m.key in entries
      ensures old(Sound()) && Holds(c, blobs, m.files) ==> Sound()
      ensures entries == old(entries) ||
        (m.key !in old(entries) && m.files != [] && entries == old(entries)[m.key := Dir(Whole(m), true)])
    {
      if m.files == [] { return; }
      var made := FileOperation();
      if !made { return; }
      var dir := Dir(NoText, false);
      var written := FileOperation();
      if !written { return; }
      dir := dir.(text := Whole(m));
      var completed := FileOperation();
      if !completed { return; }
      dir := dir.(complete := true);
      var renamed := FileOperation();
      if renamed && m.key !in entries { entries := entries[m.key := dir]; }
    }

    /** The files below the package, in any order of the map; the manifest lists them by path. */
    method Collect(package: string, files: map<string, Data>) returns (list: seq<File>)
      modifies this`blobs, this`failed
      ensures old(failed) ==> failed
      ensures !failed && DistinctBlobs(c) && old(Sound()) ==> Sound() && Holds(c, blobs, list)
      ensures ByPath(list)
      ensures forall f :: f in list ==>
        f.path in files && Prefix(package) <= f.path && f == FileOf(c, f.path, files[f.path])
      ensures forall p :: p in files && Prefix(package) <= p ==> FileOf(c, p, files[p]) in list
      ensures forall p :: p in old(blobs) ==> p in blobs && blobs[p] == old(blobs)[p]
    {
      list := [];
      var rest := files.Keys;
      while rest != {}
        invariant rest <= files.Keys && (old(failed) ==> failed)
        invariant !failed && DistinctBlobs(c) && old(Sound()) ==> Sound() && Holds(c, blobs, list)
        invariant forall f ::
          f in list ==> f.path in files && Prefix(package) <= f.path && f == FileOf(c, f.path, files[f.path])
        invariant forall p :: p in files && p !in rest && Prefix(package) <= p ==> FileOf(c, p, files[p]) in list
        invariant forall p :: p in old(blobs) ==> p in blobs && blobs[p] == old(blobs)[p]
        decreases |rest|
      {
        var p :| p in rest;
        rest := rest - {p};
        if Prefix(package) <= p {
          var rel := StoreBlob(files[p]);
          var f := FileOf(c, p, files[p]);
          assert f.blob == rel;
          assert f in list + [f];
          list := list + [f];
        }
      }
      SortKeeps(list);
      SortByPath(list);
      list := SortFiles(list);
    }

    /** If the package has an entry, one with its kind is there. */
    ghost predicate Visible(wanted: seq<Entry>, kind: string, package: string)
      reads this
    {
      (exists e :: e in wanted && e.kind == kind && e.package == package) ==>
        exists e :: e in wanted && e.kind == kind && e.package == package && e.key in entries
    }

    method StorePackage(key: string, package: string, files: map<string, Data>)
      requires Valid()
      modifies this`blobs, this`entries, this`failed
      ensures Valid() && (old(failed) ==> failed) && (!failed && DistinctBlobs(c) && old(Sound()) ==> Sound())
      ensures forall k :: k in old(entries) ==> k in entries && entries[k] == old(entries)[k]
      ensures forall k :: k in entries && k !in old(entries) ==>
        k == key && Describes(c, entries[k].text.m, files) && entries[k].text.m.kind == GENERATED &&
        entries[k].text.m.package == package
      ensures !failed && HasFiles(files, package) ==> key in entries
    {
      hide Sound, DistinctBlobs, Holds;
      var list := Collect(package, files);
      if HasFiles(files, package) {
        var p :| p in files && Prefix(package) <= p;
        assert FileOf(c, p, files[p]) in list;
      }
      StoreManifest(Manifest(key, GENERATED, package, list));
    }

    /** Stores the compiled packages that have an entry. */
    method StoreGenerated(wanted: seq<Entry>, packages: seq<string>, files: map<string, Data>)
      requires Valid()
      modifies this`blobs, this`entries, this`failed
      ensures Valid() && (old(failed) ==> failed) && (!failed && DistinctBlobs(c) && old(Sound()) ==> Sound())
      ensures forall k :: k in old(entries) ==> k in entries && entries[k] == old(entries)[k]
      ensures forall k :: k in entries && k !in old(entries) ==>
        Describes(c, entries[k].text.m, files) && entries[k].text.m.kind == GENERATED &&
        entries[k].text.m.package in packages &&
        Entry(k, GENERATED, entries[k].text.m.package) in wanted
      ensures !failed ==>
        forall i :: 0 <= i < |packages| && HasFiles(files, packages[i]) ==> Visible(wanted, GENERATED, packages[i])
    {
      hide Sound, DistinctBlobs, Describes, HasFiles;
      var byPackage := EntriesByPackage(wanted, GENERATED);
      for i := 0 to |packages|
        invariant Valid() && (old(failed) ==> failed) && (!failed && DistinctBlobs(c) && old(Sound()) ==> Sound())
        invariant !failed ==>
          forall n :: 0 <= n < i && HasFiles(files, packages[n]) ==> Visible(wanted, GENERATED, packages[n])
        invariant forall k :: k in old(entries) ==> k in entries && entries[k] == old(entries)[k]
        invariant forall k :: k in entries && k !in old(entries) ==>
          Describes(c, entries[k].text.m, files) && entries[k].text.m.kind == GENERATED &&
          entries[k].text.m.package in packages &&
          Entry(k, GENERATED, entries[k].text.m.package) in wanted
      {
        var package := packages[i];
        if package in byPackage {
          StorePackage(byPackage[package], package, files);
          assert Entry(byPackage[package], GENERATED, package) in wanted;
        }
      }
    }

    /** The files of an override package. */
    method CollectCopy(files: seq<(string, Data)>) returns (list: seq<File>)
      modifies this`blobs, this`failed
      ensures old(failed) ==> failed
      ensures !failed && DistinctBlobs(c) && old(Sound()) ==> Sound() && Holds(c, blobs, list)
      ensures Lists(c, list, files) && ByPath(list)
      ensures forall p :: p in old(blobs) ==> p in blobs && blobs[p] == old(blobs)[p]
    {
      list := [];
      for i := 0 to |files|
        invariant Lists(c, list, files[..i]) && (old(failed) ==> failed)
        invariant !failed && DistinctBlobs(c) && old(Sound()) ==> Sound() && Holds(c, blobs, list)
        invariant forall p :: p in old(blobs) ==> p in blobs && blobs[p] == old(blobs)[p]
      {
        var rel := StoreBlob(files[i].1);
        ListsMore(c, list, files, i);
        list := list + [File(files[i].0, |files[i].1|, c.hash(files[i].1), rel)];
      }
      assert files[..|files|] == files;
      SortKeeps(list);
      SortByPath(list);
      list := SortFiles(list);
    }

    method StoreCopy(key: string, copy: Copy)
      requires Valid()
      modifies this`blobs, this`entries, this`failed
      ensures Valid() && (old(failed) ==> failed) && (!failed && DistinctBlobs(c) && old(Sound()) ==> Sound())
      ensures forall k :: k in old(entries) ==> k in entries && entries[k] == old(entries)[k]
      ensures forall k :: k in entries && k !in old(entries) ==>
        k == key && Lists(c, entries[k].text.m.files, copy.files) && ByPath(entries[k].text.m.files) &&
        entries[k].text.m.kind == COPIED &&
        entries[k].text.m.package == copy.package
      ensures !failed && copy.files != [] ==> key in entries
    {
      hide Sound, DistinctBlobs, Holds;
      var list := CollectCopy(copy.files);
      if copy.files != [] { assert FileOf(c, copy.files[0].0, copy.files[0].1) in list; }
      StoreManifest(Manifest(key, COPIED, copy.package, list));
    }

    /** Stores the override packages of the plan that have an entry. */
    method StoreCopied(wanted: seq<Entry>, plan: seq<Copy>)
      requires Valid()
      modifies this`blobs, this`entries, this`failed
      ensures Valid() && (old(failed) ==> failed) && (!failed && DistinctBlobs(c) && old(Sound()) ==> Sound())
      ensures forall k :: k in old(entries) ==> k in entries && entries[k] == old(entries)[k]
      ensures forall k :: k in entries && k !in old(entries) ==>
        entries[k].text.m.kind == COPIED && Entry(k, COPIED, entries[k].text.m.package) in wanted &&
        ByPath(entries[k].text.m.files) &&
        exists i :: 0 <= i < |plan| && plan[i].package == entries[k].text.m.package &&
                    Lists(c, entries[k].text.m.files, plan[i].files)
      ensures !failed ==>
        forall i :: 0 <= i < |plan| && plan[i].files != [] ==> Visible(wanted, COPIED, plan[i].package)
    {
      hide Sound, DistinctBlobs, Lists;
      var byPackage := EntriesByPackage(wanted, COPIED);
      for i := 0 to |plan|
        invariant Valid() && (old(failed) ==> failed) && (!failed && DistinctBlobs(c) && old(Sound()) ==> Sound())
        invariant !failed ==> forall n :: 0 <= n < i && plan[n].files != [] ==> Visible(wanted, COPIED, plan[n].package)
        invariant forall k :: k in old(entries) ==> k in entries && entries[k] == old(entries)[k]
        invariant forall k :: k in entries && k !in old(entries) ==>
          entries[k].text.m.kind == COPIED && Entry(k, COPIED, entries[k].text.m.package) in wanted &&
          ByPath(entries[k].text.m.files) &&
          exists j :: 0 <= j < |plan| && plan[j].package == entries[k].text.m.package &&
                      Lists(c, entries[k].text.m.files, plan[j].files)
      {
        if plan[i].package in byPackage {
          StoreCopy(byPackage[plan[i].package], plan[i]);
          assert Entry(byPackage[plan[i].package], COPIED, plan[i].package) in wanted;
        }
      }
    }

    method ReadManifest(e: Entry) returns (r: Text)
      requires Valid()
      modifies this`failed
      ensures (old(failed) ==> failed) && (!failed && e.key in entries ==> r == entries[e.key].text)
      ensures r.Whole? ==> e.key in entries && entries[e.key].text == r && r.m.key == e.key && r.m.files != []
    {
      var read := FileOperation();
      if !read || e.key !in entries { return NoText; }
      r := entries[e.key].text;
      var stat := FileOperation();
      if !stat || !entries[e.key].complete || !r.Whole? || r.m.key != e.key || r.m.files == [] { r := NoText; }
    }

    /** Writes the files in order and stops at the first that cannot be replayed. */
    method ReplayManifest(m: Manifest) returns (ok: bool, ghost done: nat)
      modifies this`output, this`failed
      ensures (old(failed) ==> failed) && (!failed && Replayable(c, blobs, m.files) ==> ok)
      ensures done <= |m.files| && (ok ==> done == |m.files|)
      ensures Replayable(c, blobs, m.files[..done]) && output == Written(old(output), blobs, m.files[..done])
    {
      hide Written, Replayable;
      done := 0;
      NothingYet(output);
      if Replayable(c, blobs, m.files) { FileByFile(m.files); }
      for j := 0 to |m.files|
        invariant (old(failed) ==> failed) && done == j
        invariant Replayable(c, blobs, m.files[..j]) && output == Written(old(output), blobs, m.files[..j])
      {
        var f := m.files[j];
        if !c.safeOutput(f.path) || !c.safeBlob(f.blob) { return false, done; }
        var read := FileOperation();
        if !read || f.blob !in blobs || |blobs[f.blob]| != f.size || c.hash(blobs[f.blob]) != f.digest {
          return false, done;
        }
        var written := FileOperation();
        if !written { return false, done; }
        output := output[f.path := blobs[f.blob]];
        OneMore(old(output), m.files, j);
        done := j + 1;
      }
      assert m.files[..|m.files|] == m.files;
      ok := true;
    }

    lemma {:induction false} FileByFile(files: seq<File>)
      requires Replayable(c, blobs, files)
      ensures forall f :: f in files ==>
        c.safeOutput(f.path) && c.safeBlob(f.blob) && f.blob in blobs && Matches(c, blobs[f.blob], f)
    {
    }

    lemma {:induction false} OneMore(output0: map<string, Data>, files: seq<File>, j: nat)
      requires j < |files| && files[j].blob in blobs
      ensures Written(output0, blobs, files[..j + 1]) ==
        Written(output0, blobs, files[..j])[files[j].path := blobs[files[j].blob]]
      ensures c.safeOutput(files[j].path) && c.safeBlob(files[j].blob) && Matches(c, blobs[files[j].blob], files[j]) ==>
        (Replayable(c, blobs, files[..j]) ==> Replayable(c, blobs, files[..j + 1]))
    {
      assert files[..j + 1] == files[..j] + [files[j]];
      assert files[..j + 1][..j] == files[..j];
    }

    /** The entry is there with all its blobs. */
    ghost predicate AllThere(e: Entry)
      reads this
    {
      e.key in entries && entries[e.key].text.Whole? &&
      var m := entries[e.key].text.m;
      m.kind == e.kind && m.package == e.package && Replayable(c, blobs, m.files)
    }

    /** Replays all entries, or reports a miss; then the files written so far, `tried`, stay. */
    method Replay(wanted: seq<Entry>)
      returns (hit: bool, compiled: seq<string>, copied: seq<string>, ghost ms: seq<Manifest>, ghost tried: seq<File>)
      requires Valid()
      modifies this`output, this`failed
      ensures (old(failed) ==> failed) && (!failed && wanted != [] && (forall e :: e in wanted ==> AllThere(e)) ==> hit)
      ensures |ms| <= |wanted| && ManifestsOf(wanted[..|ms|], entries, ms) && tried <= AllFiles(ms)
      ensures Replayable(c, blobs, tried) && output == Written(old(output), blobs, tried)
      ensures hit ==> wanted != [] && |ms| == |wanted| && tried == AllFiles(ms)
      ensures hit ==> compiled == PackagesOf(wanted, GENERATED) && copied == PackagesOf(wanted, COPIED)
    {
      hide Written, Replayable, AllFiles;
      hit, compiled, copied, ms, tried := false, [], [], [], [];
      NothingYet(output);
      if wanted == [] { return; }
      for i := 0 to |wanted|
        invariant old(failed) ==> failed
        invariant |ms| == i && tried == AllFiles(ms) && ManifestsOf(wanted[..i], entries, ms)
        invariant Replayable(c, blobs, tried) && output == Written(old(output), blobs, tried)
        invariant compiled == PackagesOf(wanted[..i], GENERATED) && copied == PackagesOf(wanted[..i], COPIED)
      {
        var e := wanted[i];
        assert e in wanted;
        var r := ReadManifest(e);
        if !r.Whole? || r.m.kind != e.kind || r.m.package != e.package { return; }
        var ok, done := ReplayManifest(r.m);
        MoreFiles(old(output), ms, r.m, done);
        ms, tried := ms + [r.m], tried + r.m.files[..done];
        assert wanted[..i + 1][..i] == wanted[..i];
        if !ok { return; }
        assert r.m.files[..done] == r.m.files;
        if e.kind == GENERATED { compiled := compiled + [r.m.package]; }
        if e.kind == COPIED { copied := copied + [r.m.package]; }
      }
      assert wanted[..|wanted|] == wanted;
      hit := true;
    }

    lemma {:induction false} NothingYet(output0: map<string, Data>)
      ensures AllFiles([]) == [] && Replayable(c, blobs, []) && Written(output0, blobs, []) == output0
    {
    }

    lemma {:induction false} MoreFiles(output0: map<string, Data>, ms: seq<Manifest>, m: Manifest, done: nat)
      requires done <= |m.files|
      ensures AllFiles(ms + [m]) == AllFiles(ms) + m.files && AllFiles(ms) + m.files[..done] <= AllFiles(ms + [m])
      ensures Written(output0, blobs, AllFiles(ms) + m.files[..done]) ==
        Written(Written(output0, blobs, AllFiles(ms)), blobs, m.files[..done])
      ensures Replayable(c, blobs, AllFiles(ms)) && Replayable(c, blobs, m.files[..done]) ==>
        Replayable(c, blobs, AllFiles(ms) + m.files[..done])
    {
      assert (ms + [m])[..|ms|] == ms;
      WrittenConcat(output0, blobs, AllFiles(ms), m.files[..done]);
    }
  }

  function PackagesOf(wanted: seq<Entry>, kind: string): seq<string>
  {
    if wanted == [] then []
    else
      var e := wanted[|wanted| - 1];
      PackagesOf(wanted[..|wanted| - 1], kind) + (if e.kind == kind then [e.package] else [])
  }

  method EntriesByPackage(wanted: seq<Entry>, kind: string) returns (keys: map<string, string>)
    ensures forall p :: p in keys ==> Entry(keys[p], kind, p) in wanted
    ensures forall e :: e in wanted && e.kind == kind ==> e.package in keys
  {
    keys := map[];
    for i := 0 to |wanted|
      invariant forall p :: p in keys ==> Entry(keys[p], kind, p) in wanted
      invariant forall n :: 0 <= n < i && wanted[n].kind == kind ==> wanted[n].package in keys
    {
      if wanted[i].kind == kind {
        assert wanted[i] == Entry(wanted[i].key, kind, wanted[i].package);
        keys := keys[wanted[i].package := wanted[i].key];
      }
    }
  }

  /** The library sort (slices.SortFunc) by path. */
  function SortFiles(list: seq<File>): seq<File>
  {
    if list == [] then [] else InsertFile(list[0], SortFiles(list[1..]))
  }

  function InsertFile(f: File, list: seq<File>): seq<File>
  {
    if list == [] || Leq(f.path, list[0].path) then [f] + list else [list[0]] + InsertFile(f, list[1..])
  }

  lemma {:induction false} InsertKeeps(f: File, list: seq<File>)
    ensures forall x :: x in InsertFile(f, list) <==> x == f || x in list
  {
    if list != [] && !Leq(f.path, list[0].path) {
      InsertKeeps(f, list[1..]);
      assert forall x :: x in list <==> x == list[0] || x in list[1..];
    }
  }

  lemma {:induction false} SortKeeps(list: seq<File>)
    ensures forall x :: x in SortFiles(list) <==> x in list
  {
    if list != [] {
      SortKeeps(list[1..]);
      InsertKeeps(list[0], SortFiles(list[1..]));
      assert forall x :: x in list <==> x == list[0] || x in list[1..];
    }
  }

  lemma {:induction false} InsertByPath(f: File, list: seq<File>)
    requires ByPath(list)
    ensures ByPath(InsertFile(f, list))
  {
    if list != [] {
      if Leq(f.path, list[0].path) {
        forall i | 0 <= i < |list| ensures Leq(f.path, list[i].path) {
          if i > 0 { LeqTransitive(f.path, list[0].path, list[i].path); }
        }
      } else {
        LeqTotal(f.path, list[0].path);
        var rest := InsertFile(f, list[1..]);
        InsertByPath(f, list[1..]);
        InsertKeeps(f, list[1..]);
        forall i | 0 <= i < |rest| ensures Leq(list[0].path, rest[i].path) { assert rest[i] in rest; }
      }
    }
  }

  lemma {:induction false} SortByPath(list: seq<File>)
    ensures ByPath(SortFiles(list))
  {
    if list != [] {
      SortByPath(list[1..]);
      InsertByPath(list[0], SortFiles(list[1..]));
    }
  }

  // ----- a replay gives every package its own files -----

  /** The entries of a compile: generated packages by path, then the copied ones. */
  ghost predicate InOrder(wanted: seq<Entry>, generated: nat)
  {
    && generated <= |wanted|
    && (forall i :: 0 <= i < generated ==> wanted[i].kind == GENERATED)
    && (forall i :: generated <= i < |wanted| ==> wanted[i].kind == COPIED)
    && (forall i, j :: 0 <= i < j < generated ==> Leq(wanted[i].package, wanted[j].package))
    && (forall i, j :: 0 <= i < j < generated && wanted[i].package == wanted[j].package ==>
        wanted[i].key == wanted[j].key)
  }

  /** A node of the package graph, and whether an override replaces the package. */
  datatype GraphNode = GraphNode(package: string, override: bool)

  /** Entries: the generated packages in the order of the graph, then the plan. */
  method Entries(nodes: seq<GraphNode>, keys: map<string, string>, plan: seq<Copy>)
    returns (wanted: seq<Entry>, ghost generated: nat)
    requires forall i, j :: 0 <= i < j < |nodes| ==> Leq(nodes[i].package, nodes[j].package)
    requires forall i :: 0 <= i < |nodes| && !nodes[i].override ==> nodes[i].package in keys
    ensures InOrder(wanted, generated) && |wanted| == generated + |plan|
    ensures forall i :: 0 <= i < generated ==> wanted[i].package in keys && wanted[i].key == keys[wanted[i].package]
    ensures forall n :: n in nodes && !n.override ==>
      Entry(keys[n.package], GENERATED, n.package) in wanted[..generated]
    ensures forall i :: 0 <= i < generated ==> GraphNode(wanted[i].package, false) in nodes
    ensures forall i :: 0 <= i < |plan| ==> wanted[generated + i] == Entry(plan[i].key, COPIED, plan[i].package)
  {
    wanted := [];
    for i := 0 to |nodes|
      invariant forall k ::
        0 <= k < |wanted| ==>
          wanted[k].kind == GENERATED && wanted[k].package in keys && wanted[k].key == keys[wanted[k].package]
      invariant forall j, k :: 0 <= j < k < |wanted| ==> Leq(wanted[j].package, wanted[k].package)
      invariant forall k, j :: 0 <= k < |wanted| && i <= j < |nodes| ==> Leq(wanted[k].package, nodes[j].package)
      invariant forall k :: 0 <= k < |wanted| ==> GraphNode(wanted[k].package, false) in nodes
      invariant forall k ::
        0 <= k < i && !nodes[k].override ==> Entry(keys[nodes[k].package], GENERATED, nodes[k].package) in wanted
    {
      if !nodes[i].override { wanted := wanted + [Entry(keys[nodes[i].package], GENERATED, nodes[i].package)]; }
    }
    generated := |wanted|;
    ghost var first := wanted;
    for i := 0 to |plan|
      invariant |wanted| == generated + i && wanted[..generated] == first
      invariant forall k :: 0 <= k < i ==> wanted[generated + k] == Entry(plan[k].key, COPIED, plan[k].package)
      invariant forall k :: generated <= k < |wanted| ==> wanted[k].kind == COPIED
    {
      wanted := wanted + [Entry(plan[i].key, COPIED, plan[i].package)];
    }
    assert forall k :: 0 <= k < generated ==> wanted[k] == first[k];
  }

  /** The manifests of a successful replay. */
  ghost predicate ManifestsOf(wanted: seq<Entry>, entries: map<string, Dir>, ms: seq<Manifest>)
  {
    |ms| == |wanted| && forall i :: 0 <= i < |ms| ==>
      wanted[i].key in entries && entries[wanted[i].key].text == Whole(ms[i]) && ms[i].kind == wanted[i].kind &&
      ms[i].package == wanted[i].package
  }

  /** Where a file of a manifest stands among all files. */
  lemma {:induction false} FileFrom(ms: seq<Manifest>, y: nat) returns (n: nat, k: nat)
    requires y < |AllFiles(ms)|
    ensures n < |ms| && k < |ms[n].files| && AllFiles(ms)[y] == ms[n].files[k]
    ensures y == |AllFiles(ms[..n])| + k
    decreases |ms|
  {
    var last := |ms| - 1;
    if y < |AllFiles(ms[..last])| {
      n, k := FileFrom(ms[..last], y);
      assert ms[..last][..n] == ms[..n];
    } else {
      n, k := last, y - |AllFiles(ms[..last])|;
    }
  }

  lemma {:induction false} AllFilesLonger(ms: seq<Manifest>, a: nat, b: nat)
    requires a <= b <= |ms|
    ensures |AllFiles(ms[..a])| <= |AllFiles(ms[..b])|
    decreases b
  {
    if a < b {
      assert ms[..b][..b - 1] == ms[..b - 1];
      AllFilesLonger(ms, a, b - 1);
    }
  }

  /** The data every file with path `path` of package `package` stands for. */
  ghost predicate Stands(m: Manifest, path: string, digest: string)
  {
    forall k :: 0 <= k < |m.files| && m.files[k].path == path ==> m.files[k].digest == digest
  }

  /** After a successful replay an own file of a generated package holds that package's stored
      content, although packages with a shorter path list it too: they are replayed earlier. */
  lemma {:induction false} OwnFileReplayed(c: Setting, wanted: seq<Entry>, generated: nat, entries: map<string, Dir>,
                                           ms: seq<Manifest>, blobs: map<string, Data>, output: map<string, Data>,
                                           i: nat, x: nat, data: Data)
    requires forall a, b :: c.hash(a) == c.hash(b) ==> a == b
    requires InOrder(wanted, generated) && ManifestsOf(wanted, entries, ms) && Replayable(c, blobs, AllFiles(ms))
    requires i < generated && x < |ms[i].files|
    requires forall n, k ::
      0 <= n < generated && 0 <= k < |ms[n].files| ==> Prefix(ms[n].package) <= ms[n].files[k].path
    requires var path := ms[i].files[x].path;
      OwnPath(ms[i].package, path) && ms[i].files[x].digest == c.hash(data) && Stands(ms[i], path, c.hash(data)) &&
      forall n, k :: generated <= n < |ms| && 0 <= k < |ms[n].files| ==> ms[n].files[k].path != path
    ensures var path, out := ms[i].files[x].path, Written(output, blobs, AllFiles(ms)); path in out && out[path] == data
  {
    hide AllFiles;
    var path, files := ms[i].files[x].path, AllFiles(ms);
    var x1 := |AllFiles(ms[..i])| + x;
    AtIndex(ms, i, x);
    forall y | x1 <= y < |files| && files[y].path == path
      ensures files[y].blob in blobs && blobs[files[y].blob] == data
    {
      var n, k := FileFrom(ms, y);
      if n < i { AllFilesLonger(ms, n + 1, i); InFirst(ms, n, k); }
      assert n < generated;
      assert Prefix(ms[n].package) <= path && Leq(ms[i].package, ms[n].package) by {
        assert Prefix(ms[n].package) <= ms[n].files[k].path;
        if n == i { LeqRefl(ms[i].package); }
      }
      LaterCovers(ms[n].package, ms[i].package, path);
      assert ms[n] == ms[i];
      assert files[y] in files && Matches(c, blobs[files[y].blob], files[y]);
    }
    LastWriter(output, blobs, files, x1, path, data);
  }

  lemma {:induction false} InFirst(ms: seq<Manifest>, n: nat, k: nat)
    requires n < |ms| && k < |ms[n].files|
    ensures |AllFiles(ms[..n])| + k < |AllFiles(ms[..n + 1])|
  {
    assert ms[..n + 1][..n] == ms[..n];
  }

  lemma {:induction false} AtIndex(ms: seq<Manifest>, n: nat, k: nat)
    requires n < |ms| && k < |ms[n].files|
    ensures var y := |AllFiles(ms[..n])| + k; y < |AllFiles(ms)| && AllFiles(ms)[y] == ms[n].files[k]
    decreases |ms|
  {
    var last := |ms| - 1;
    if n < last {
      AtIndex(ms[..last], n, k);
      assert ms[..last][..n] == ms[..n];
    }
  }

  // ----- agreement with a fresh compile -----

  /** A full compile: what it emits, the keys of the packages it generates, and the override
      packages it copies. */
  datatype Build = Build(emitted: map<string, Data>, keys: map<string, string>, plan: seq<Copy>)

  ghost predicate StoredBy(c: Setting, b: Build, key: string, dir: Dir)
  {
    && dir.complete && dir.text.Whole? && dir.text.m.key == key && dir.text.m.kind == GENERATED
    && dir.text.m.package in b.keys && b.keys[dir.text.m.package] == key && Describes(c, dir.text.m, b.emitted)
  }

  ghost predicate CopiedBy(c: Setting, b: Build, key: string, dir: Dir)
  {
    && dir.complete && dir.text.Whole? && dir.text.m.key == key && dir.text.m.kind == COPIED
    && exists i :: 0 <= i < |b.plan| && b.plan[i].package == dir.text.m.package && b.plan[i].key == key &&
                   Lists(c, dir.text.m.files, b.plan[i].files)
  }

  /** Every entry was stored by a compile of the history. */
  ghost predicate FromHistory(c: Setting, history: seq<Build>, entries: map<string, Dir>)
  {
    forall k :: k in entries ==>
      exists n :: 0 <= n < |history| &&
                  (StoredBy(c, history[n], k, entries[k]) || CopiedBy(c, history[n], k, entries[k]))
  }

  ghost predicate SameOwnFiles(a: Build, b: Build, package: string)
  {
    forall path :: OwnPath(package, path) ==>
      (path in a.emitted <==> path in b.emitted) && (path in a.emitted ==> a.emitted[path] == b.emitted[path])
  }

  /** A key that two compiles share for generated entries belongs to one package, and both emit
      the same for it. */
  ghost predicate KeysDetermine(history: seq<Build>, b: Build)
  {
    forall n, p, q :: 0 <= n < |history| && p in history[n].keys && q in b.keys && history[n].keys[p] == b.keys[q] ==>
      p == q && SameOwnFiles(history[n], b, p)
  }

  /** Equal keys of copied entries stand for the same files. */
  ghost predicate CopyKeysDetermine(history: seq<Build>, b: Build)
  {
    forall n, i, j :: 0 <= n < |history| && 0 <= i < |history[n].plan| && 0 <= j < |b.plan| &&
                      history[n].plan[i].key == b.plan[j].key ==>
      history[n].plan[i].files == b.plan[j].files
  }

  /** No two packages of the plan copy different data to a path, and none copies to a path of a
      generated package. */
  ghost predicate PlanFits(b: Build)
  {
    && (forall i, j, x, y ::
        0 <= i < |b.plan| && 0 <= j < |b.plan| && 0 <= x < |b.plan[i].files| && 0 <= y < |b.plan[j].files| ==>
          b.plan[i].files[x].0 != b.plan[j].files[y].0 || b.plan[i].files[x].1 == b.plan[j].files[y].1)
    && (forall i, x, p ::
        0 <= i < |b.plan| && 0 <= x < |b.plan[i].files| && p in b.keys ==> !OwnPath(p, b.plan[i].files[x].0))
  }

  /** The replay for the packages of `b`. */
  ghost predicate ReplayOf(c: Setting, b: Build, wanted: seq<Entry>, generated: nat, entries: map<string, Dir>,
                           ms: seq<Manifest>, blobs: map<string, Data>)
  {
    && ManifestsOf(wanted, entries, ms) && Replayable(c, blobs, AllFiles(ms)) && Asks(b, wanted, generated)
    && PlanFits(b)
  }

  /** The entries asked for are those of the packages of `b`. */
  ghost predicate Asks(b: Build, wanted: seq<Entry>, generated: nat)
  {
    && InOrder(wanted, generated) && |wanted| == generated + |b.plan|
    && (forall i :: 0 <= i < generated ==> wanted[i].package in b.keys && wanted[i].key == b.keys[wanted[i].package])
    && (forall i :: 0 <= i < |b.plan| ==> wanted[generated + i] == Entry(b.plan[i].key, COPIED, b.plan[i].package))
  }

  lemma {:induction false} StoredManifest(c: Setting, history: seq<Build>, b: Build, wanted: seq<Entry>, generated: nat,
                                          entries: map<string, Dir>, ms: seq<Manifest>, blobs: map<string, Data>,
                                          i: nat)
    returns (n: nat)
    requires FromHistory(c, history, entries) && ReplayOf(c, b, wanted, generated, entries, ms, blobs) && i < generated
    ensures n < |history| && StoredBy(c, history[n], wanted[i].key, Dir(Whole(ms[i]), true)) &&
      ms[i].package == wanted[i].package
  {
    var k := wanted[i].key;
    assert entries[k].text == Whole(ms[i]);
    n :| 0 <= n < |history| && (StoredBy(c, history[n], k, entries[k]) || CopiedBy(c, history[n], k, entries[k]));
    assert entries[k] == Dir(Whole(ms[i]), true);
  }

  /** The manifest of a copied package lists its files of this compile. */
  lemma {:induction false} CopiedManifest(c: Setting, history: seq<Build>, b: Build, wanted: seq<Entry>, generated: nat,
                                          entries: map<string, Dir>, ms: seq<Manifest>, blobs: map<string, Data>,
                                          j: nat)
    requires FromHistory(c, history, entries) && ReplayOf(c, b, wanted, generated, entries, ms, blobs)
    requires CopyKeysDetermine(history, b) && j < |b.plan|
    ensures Lists(c, ms[generated + j].files, b.plan[j].files)
  {
    hide Lists, PlanFits, Replayable, AllFiles, Describes;
    var k := wanted[generated + j].key;
    assert entries[k].text == Whole(ms[generated + j]) && k == b.plan[j].key;
    var n :| 0 <= n < |history| && (StoredBy(c, history[n], k, entries[k]) || CopiedBy(c, history[n], k, entries[k]));
    assert CopiedBy(c, history[n], k, entries[k]);
  }

  /** A file of a copied manifest is a file of the plan. */
  lemma {:induction false} CopiedFile(c: Setting, history: seq<Build>, b: Build, wanted: seq<Entry>, generated: nat,
                                      entries: map<string, Dir>, ms: seq<Manifest>, blobs: map<string, Data>, n: nat,
                                      k: nat)
    returns (x: nat)
    requires FromHistory(c, history, entries) && ReplayOf(c, b, wanted, generated, entries, ms, blobs)
    requires CopyKeysDetermine(history, b)
    requires generated <= n < |ms| && k < |ms[n].files|
    ensures x < |b.plan[n - generated].files|
    ensures ms[n].files[k] == FileOf(c, b.plan[n - generated].files[x].0, b.plan[n - generated].files[x].1)
  {
    CopiedManifest(c, history, b, wanted, generated, entries, ms, blobs, n - generated);
    assert ms[n].files[k] in ms[n].files;
    x :| 0 <= x < |b.plan[n - generated].files| &&
      ms[n].files[k] == FileOf(c, b.plan[n - generated].files[x].0, b.plan[n - generated].files[x].1);
  }

  /** After a hit every file of an override package has the content of this compile. */
  lemma {:induction false} CopyAgrees(c: Setting, history: seq<Build>, b: Build, wanted: seq<Entry>, generated: nat,
                                      entries: map<string, Dir>, ms: seq<Manifest>, blobs: map<string, Data>,
                                      output: map<string, Data>, j: nat, x: nat)
    requires forall d, e :: c.hash(d) == c.hash(e) ==> d == e
    requires FromHistory(c, history, entries) && CopyKeysDetermine(history, b)
    requires ReplayOf(c, b, wanted, generated, entries, ms, blobs)
    requires j < |b.plan| && x < |b.plan[j].files|
    ensures var out, file := Written(output, blobs, AllFiles(ms)), b.plan[j].files[x];
      file.0 in out && out[file.0] == file.1
  {
    hide AllFiles, FromHistory, CopyKeysDetermine, InOrder;
    var n, path, data, files := generated + j, b.plan[j].files[x].0, b.plan[j].files[x].1, AllFiles(ms);
    CopiedManifest(c, history, b, wanted, generated, entries, ms, blobs, j);
    assert FileOf(c, path, data) in ms[n].files;
    var k :| 0 <= k < |ms[n].files| && ms[n].files[k] == FileOf(c, path, data);
    var y0 := |AllFiles(ms[..n])| + k;
    AtIndex(ms, n, k);
    forall y | y0 <= y < |files| && files[y].path == path
      ensures files[y].blob in blobs && blobs[files[y].blob] == data
    {
      var o, i := FileFrom(ms, y);
      if o < n { AllFilesLonger(ms, o + 1, n); InFirst(ms, o, i); }
      var z := CopiedFile(c, history, b, wanted, generated, entries, ms, blobs, o, i);
      assert b.plan[o - generated].files[z].0 == path;
      assert files[y] in files && Matches(c, blobs[files[y].blob], files[y]);
    }
    LastWriter(output, blobs, files, y0, path, data);
  }

  /** After a hit an own file of a generated package holds what was emitted by the compile that
      stored the entry of the package, whatever has been compiled since. */
  lemma {:induction false} HitGives(c: Setting, history: seq<Build>, b: Build, wanted: seq<Entry>, generated: nat,
                                    entries: map<string, Dir>, ms: seq<Manifest>, blobs: map<string, Data>,
                                    output: map<string, Data>, i: nat)
    returns (n: nat)
    requires forall x, y :: c.hash(x) == c.hash(y) ==> x == y
    requires FromHistory(c, history, entries) && CopyKeysDetermine(history, b)
    requires ReplayOf(c, b, wanted, generated, entries, ms, blobs)
    requires i < generated
    ensures n < |history| && StoredBy(c, history[n], wanted[i].key, entries[wanted[i].key])
    ensures wanted[i].package in history[n].keys && history[n].keys[wanted[i].package] == wanted[i].key
    ensures var out := Written(output, blobs, AllFiles(ms));
      forall path :: OwnPath(wanted[i].package, path) && path in history[n].emitted ==>
        path in out && out[path] == history[n].emitted[path]
  {
    hide FromHistory, CopyKeysDetermine, ManifestsOf, Replayable, PlanFits, Describes, Written, AllFiles, OwnPath;
    n := StoredManifest(c, history, b, wanted, generated, entries, ms, blobs, i);
    StoredEntry(c, history, b, wanted, generated, entries, ms, blobs, n, i);
    forall path | OwnPath(wanted[i].package, path) && path in history[n].emitted
      ensures var out := Written(output, blobs, AllFiles(ms)); path in out && out[path] == history[n].emitted[path]
    {
      OwnFileGiven(c, history, b, wanted, generated, entries, ms, blobs, output, i, n, path);
    }
  }

  lemma {:induction false} StoredEntry(c: Setting, history: seq<Build>, b: Build, wanted: seq<Entry>, generated: nat,
                                       entries: map<string, Dir>, ms: seq<Manifest>, blobs: map<string, Data>, n: nat,
                                       i: nat)
    requires FromHistory(c, history, entries) && ReplayOf(c, b, wanted, generated, entries, ms, blobs) && i < generated
    requires n < |history|
    requires StoredBy(c, history[n], wanted[i].key, Dir(Whole(ms[i]), true)) && ms[i].package == wanted[i].package
    ensures wanted[i].key in entries && entries[wanted[i].key] == Dir(Whole(ms[i]), true)
  {
    hide Describes, Replayable, AllFiles, PlanFits, Lists;
    var k := wanted[i].key;
    assert entries[k].text == Whole(ms[i]);
    var o :| 0 <= o < |history| && (StoredBy(c, history[o], k, entries[k]) || CopiedBy(c, history[o], k, entries[k]));
  }

  lemma {:induction false} OwnFileGiven(c: Setting, history: seq<Build>, b: Build, wanted: seq<Entry>, generated: nat,
                                        entries: map<string, Dir>, ms: seq<Manifest>, blobs: map<string, Data>,
                                        output: map<string, Data>, i: nat, n: nat, path: string)
    requires forall x, y :: c.hash(x) == c.hash(y) ==> x == y
    requires FromHistory(c, history, entries) && CopyKeysDetermine(history, b)
    requires ReplayOf(c, b, wanted, generated, entries, ms, blobs)
    requires i < generated && n < |history| && StoredBy(c, history[n], wanted[i].key, Dir(Whole(ms[i]), true))
    requires ms[i].package == wanted[i].package
    requires OwnPath(wanted[i].package, path) && path in history[n].emitted
    ensures var out := Written(output, blobs, AllFiles(ms)); path in out && out[path] == history[n].emitted[path]
  {
    var a, m := history[n], ms[i];
    assert Prefix(m.package) <= path by { var name :| path == Prefix(m.package) + name && '/' !in name; }
    var f := FileOf(c, path, a.emitted[path]);
    assert f in m.files;
    var x :| 0 <= x < |m.files| && m.files[x] == f;
    forall j, k | 0 <= j < generated && 0 <= k < |ms[j].files| ensures Prefix(ms[j].package) <= ms[j].files[k].path {
      var o := StoredManifest(c, history, b, wanted, generated, entries, ms, blobs, j);
      assert ms[j].files[k] in ms[j].files;
    }
    assert Stands(m, path, f.digest) by {
      forall k | 0 <= k < |m.files| && m.files[k].path == path
        ensures m.files[k].digest == f.digest
      {
        assert m.files[k] in m.files;
      }
    }
    forall j, k | generated <= j < |ms| && 0 <= k < |ms[j].files| ensures ms[j].files[k].path != path {
      var z := CopiedFile(c, history, b, wanted, generated, entries, ms, blobs, j, k);
      assert !OwnPath(wanted[i].package, b.plan[j - generated].files[z].0);
    }
    OwnFileReplayed(c, wanted, generated, entries, ms, blobs, output, i, x, a.emitted[path]);
  }

  /** Where keys determine what is emitted, a hit agrees with a fresh compile, whatever compiles
      filled the cache before: every own file of every generated package has its fresh content. */
  lemma {:induction false} HitAgrees(c: Setting, history: seq<Build>, b: Build, wanted: seq<Entry>, generated: nat,
                                     entries: map<string, Dir>, ms: seq<Manifest>, blobs: map<string, Data>,
                                     output: map<string, Data>, i: nat, path: string)
    requires forall x, y :: c.hash(x) == c.hash(y) ==> x == y
    requires FromHistory(c, history, entries) && CopyKeysDetermine(history, b) && KeysDetermine(history, b)
    requires ReplayOf(c, b, wanted, generated, entries, ms, blobs)
    requires i < generated && OwnPath(wanted[i].package, path) && path in b.emitted
    ensures var out := Written(output, blobs, AllFiles(ms)); path in out && out[path] == b.emitted[path]
  {
    hide FromHistory, CopyKeysDetermine, Written, AllFiles, StoredBy, OwnPath;
    var n := HitGives(c, history, b, wanted, generated, entries, ms, blobs, output, i);
    assert SameOwnFiles(history[n], b, wanted[i].package);
  }

  /** A full compile adds only entries of its own: the history grows by it. */
  lemma {:induction false} HistoryGrows(c: Setting, history: seq<Build>, b: Build, before: map<string, Dir>,
                                        after: map<string, Dir>)
    requires FromHistory(c, history, before)
    requires forall k :: k in after && k !in before ==> StoredBy(c, b, k, after[k]) || CopiedBy(c, b, k, after[k])
    requires forall k :: k in before ==> k in after && after[k] == before[k]
    ensures FromHistory(c, history + [b], after)
  {
    hide StoredBy, CopiedBy;
    var all := history + [b];
    forall k | k in after
      ensures exists n :: 0 <= n < |all| && (StoredBy(c, all[n], k, after[k]) || CopiedBy(c, all[n], k, after[k]))
    {
      if k in before {
        var n :| 0 <= n < |history| && (StoredBy(c, history[n], k, before[k]) || CopiedBy(c, history[n], k, before[k]));
        assert all[n] == history[n];
      } else {
        assert all[|history|] == b;
      }
    }
  }

  /** What is stored under an entry asked for has its key. */
  lemma {:induction false} AskedKey(b: Build, wanted: seq<Entry>, generated: nat, k: string, package: string)
    requires Asks(b, wanted, generated)
    ensures Entry(k, GENERATED, package) in wanted ==> package in b.keys && b.keys[package] == k
    ensures Entry(k, COPIED, package) in wanted ==>
      exists i :: 0 <= i < |b.plan| && b.plan[i].package == package && b.plan[i].key == k
  {
    if Entry(k, GENERATED, package) in wanted {
      var i :| 0 <= i < |wanted| && wanted[i] == Entry(k, GENERATED, package);
    }
    if Entry(k, COPIED, package) in wanted {
      var i :| 0 <= i < |wanted| && wanted[i] == Entry(k, COPIED, package);
      assert wanted[generated + (i - generated)] ==
        Entry(b.plan[i - generated].key, COPIED, b.plan[i - generated].package);
    }
  }
}
