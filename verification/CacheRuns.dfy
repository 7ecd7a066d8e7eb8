/** Cache stores and replays that run side by side (compiler/compiler-cache.go). Each step is
    one file operation; any of them may fail, a process may stop for good at any point, and
    blobs may be lost or damaged from outside. */
module CacheRuns {

  type Data = string

  datatype File = File(path: string, size: nat, digest: string, blob: string)

  datatype Manifest = Manifest(key: string, kind: string, package: string, files: seq<File>)

  /** A request for a cached package. */
  datatype Entry = Entry(key: string, kind: string, package: string)

  /** The manifest file of an entry directory. */
  datatype Text = NoText | Whole(m: Manifest)

  datatype Dir = Dir(text: Text, complete: bool)

  datatype Disk = Disk(blobs: map<string, Data>, entries: map<string, Dir>, output: map<string, Data>)

  datatype Proc =
    | Idle
    | Blobs(m: Manifest, contents: seq<Data>, i: nat)
    | BlobTemp(m: Manifest, contents: seq<Data>, i: nat, written: Data)
    | EntryTemp(m: Manifest, dir: Dir)
    | Reading(wanted: seq<Entry>, ms: seq<Manifest>, wrote: seq<(string, Data)>)
    | HasText(wanted: seq<Entry>, ms: seq<Manifest>, next: Manifest, wrote: seq<(string, Data)>)
    | Copying(wanted: seq<Entry>, ms: seq<Manifest>, j: nat, wrote: seq<(string, Data)>)
    | HasBlob(wanted: seq<Entry>, ms: seq<Manifest>, j: nat, data: Data, wrote: seq<(string, Data)>)
    | Hit(wanted: seq<Entry>, ms: seq<Manifest>, wrote: seq<(string, Data)>)
    | Miss(wrote: seq<(string, Data)>)

  /** The hash, where a blob of a digest lies, and the path checks of a replay. */
  datatype Setting = Setting(hash: Data -> string, blobPath: string -> string, safeOutput: string -> bool,
                             safeBlob: string -> bool)

  // ----- steps -----

  function FileOf(c: Setting, path: string, data: Data): File
  {
    File(path, |data|, c.hash(data), c.blobPath(c.hash(data)))
  }

  /** The manifest a store writes for these contents. */
  ghost predicate Made(c: Setting, m: Manifest, contents: seq<Data>)
  {
    |contents| == |m.files| > 0 &&
    forall i :: 0 <= i < |m.files| ==> m.files[i] == FileOf(c, m.files[i].path, contents[i])
  }

  predicate Matches(c: Setting, data: Data, f: File)
  {
    |data| == f.size && c.hash(data) == f.digest
  }

  /** storeBlob and storeManifest. */
  ghost predicate StoreStep(c: Setting, d: Disk, pr: Proc, d1: Disk, pr1: Proc)
  {
    match pr
    case Idle => d1 == d && pr1.Blobs? && pr1.i == 0 && Made(c, pr1.m, pr1.contents)
    case Blobs(m, contents, i) =>
      d1 == d &&
      if i < |contents| && i < |m.files| then
        // already there, or a directory or temporary file could not be made
        pr1 == Blobs(m, contents, i + 1) ||
        // a temporary file with as much as could be written
        (m.files[i].blob !in d.blobs && pr1.BlobTemp? && pr1 == BlobTemp(m, contents, i, pr1.written))
      else pr1 == Idle || pr1 == EntryTemp(m, Dir(NoText, false))
    case BlobTemp(m, contents, i, written) =>
      i < |contents| && i < |m.files| && pr1 == Blobs(m, contents, i + 1) &&
      (d1 == d || (written == contents[i] && d1 == d.(blobs := d.blobs[m.files[i].blob := written])))
    case EntryTemp(m, dir) =>
      if dir.text == NoText then d1 == d && (pr1 == Idle || pr1 == EntryTemp(m, Dir(Whole(m), false)))
      else if !dir.complete then d1 == d && (pr1 == Idle || pr1 == EntryTemp(m, Dir(Whole(m), true)))
      else
        // a directory cannot be renamed onto an entry that is there
        pr1 == Idle && (d1 == d || (m.key !in d.entries && d1 == d.(entries := d.entries[m.key := dir])))
    case _ => false
  }

  /** Replay, readManifest and replayManifest. */
  ghost predicate ReplayStep(c: Setting, d: Disk, pr: Proc, d1: Disk, pr1: Proc)
  {
    match pr
    case Idle => d1 == d && pr1.Reading? && pr1.wanted != [] && pr1.ms == [] && pr1.wrote == []
    case Reading(wanted, ms, wrote) =>
      d1 == d &&
      if |ms| >= |wanted| then pr1 == Hit(wanted, ms, wrote)
      else
        var key := wanted[|ms|].key;
        pr1 == Miss(wrote) ||
        (key in d.entries && d.entries[key].text.Whole? && pr1 == HasText(wanted, ms, d.entries[key].text.m, wrote))
    case HasText(wanted, ms, next, wrote) =>
      d1 == d &&
      (pr1 == Miss(wrote) ||
       (|ms| < |wanted| &&
        var e := wanted[|ms|];
        e.key in d.entries && d.entries[e.key].complete && next.key == e.key && next.files != [] &&
        next.kind == e.kind && next.package == e.package && pr1 == Copying(wanted, ms + [next], 0, wrote)))
    case Copying(wanted, ms, j, wrote) =>
      d1 == d && ms != [] &&
      var m := ms[|ms| - 1];
      if j >= |m.files| then pr1 == Reading(wanted, ms, wrote)
      else
        var f := m.files[j];
        pr1 == Miss(wrote) ||
        (c.safeOutput(f.path) && c.safeBlob(f.blob) && f.blob in d.blobs && Matches(c, d.blobs[f.blob], f) &&
         pr1 == HasBlob(wanted, ms, j, d.blobs[f.blob], wrote))
    case HasBlob(wanted, ms, j, data, wrote) =>
      ms != [] && j < |ms[|ms| - 1].files| &&
      var f := ms[|ms| - 1].files[j];
      // writeFileAtomic renames a temporary file: all of the data or nothing appears
      (d1 == d && pr1 == Miss(wrote)) ||
      (d1 == d.(output := d.output[f.path := data]) && pr1 == Copying(wanted, ms, j + 1, wrote + [(f.path, data)]))
    case _ => false
  }

  datatype State = State(disk: Disk, procs: map<nat, Proc>)

  ghost predicate Next(c: Setting, s: State, s1: State)
  {
    (exists p, pr1 :: ProcStep(c, s, s1, p, pr1)) || Damage(s, s1)
  }

  ghost predicate ProcStep(c: Setting, s: State, s1: State, p: nat, pr1: Proc)
  {
    p in s.procs && s1.procs == s.procs[p := pr1] &&
    (StoreStep(c, s.disk, s.procs[p], s1.disk, pr1) || ReplayStep(c, s.disk, s.procs[p], s1.disk, pr1))
  }

  /** Blobs are lost or altered from outside. */
  ghost predicate Damage(s: State, s1: State)
  {
    s1.procs == s.procs && s1.disk == s.disk.(blobs := s1.disk.blobs)
  }

  ghost predicate Start(s: State)
  {
    s.disk.entries == map[] && forall p :: p in s.procs ==> s.procs[p] == Idle
  }

  // ----- what every step keeps -----

  /** A visible entry is a complete one, made by a store. */
  ghost predicate Complete(c: Setting, key: string, dir: Dir)
  {
    dir.complete && dir.text.Whole? && dir.text.m.key == key && exists contents :: Made(c, dir.text.m, contents)
  }

  function AllFiles(ms: seq<Manifest>): seq<File>
  {
    if ms == [] then [] else AllFiles(ms[..|ms| - 1]) + ms[|ms| - 1].files
  }

  /** The writes are the files, in order, with data of their size and digest. */
  ghost predicate Wrote(c: Setting, files: seq<File>, wrote: seq<(string, Data)>)
  {
    |wrote| == |files| &&
    forall i :: 0 <= i < |files| ==> wrote[i].0 == files[i].path && Matches(c, wrote[i].1, files[i])
  }

  /** The manifests are those of the wanted entries. */
  ghost predicate ReadFrom(d: Disk, wanted: seq<Entry>, ms: seq<Manifest>)
  {
    |ms| <= |wanted| && forall i :: 0 <= i < |ms| ==>
      wanted[i].key in d.entries && d.entries[wanted[i].key].text == Whole(ms[i]) && ms[i].kind == wanted[i].kind &&
      ms[i].package == wanted[i].package
  }

  ghost predicate ProcOk(c: Setting, d: Disk, pr: Proc)
  {
    match pr
    case Idle => true
    case Blobs(m, contents, i) => Made(c, m, contents)
    case BlobTemp(m, contents, i, _) => Made(c, m, contents) && i < |contents|
    case EntryTemp(m, dir) =>
      (exists contents :: Made(c, m, contents)) && (dir.text == NoText || dir.text == Whole(m)) &&
      (dir.complete ==> dir.text == Whole(m))
    case Reading(wanted, ms, wrote) => ReadFrom(d, wanted, ms) && Wrote(c, AllFiles(ms), wrote)
    case HasText(wanted, ms, next, wrote) =>
      ReadFrom(d, wanted, ms) && Wrote(c, AllFiles(ms), wrote) && |ms| < |wanted| &&
      wanted[|ms|].key in d.entries && d.entries[wanted[|ms|].key].text == Whole(next)
    case Copying(wanted, ms, j, wrote) => CopyOk(c, d, wanted, ms, j, wrote)
    case HasBlob(wanted, ms, j, data, wrote) =>
      CopyOk(c, d, wanted, ms, j, wrote) && j < |ms[|ms| - 1].files| && Matches(c, data, ms[|ms| - 1].files[j])
    case Hit(wanted, ms, wrote) => |ms| == |wanted| && ReadFrom(d, wanted, ms) && Wrote(c, AllFiles(ms), wrote)
    case Miss(_) => true
  }

  ghost predicate CopyOk(c: Setting, d: Disk, wanted: seq<Entry>, ms: seq<Manifest>, j: nat, wrote: seq<(string, Data)>)
  {
    ReadFrom(d, wanted, ms) && ms != [] && j <= |ms[|ms| - 1].files| &&
    Wrote(c, AllFiles(ms[..|ms| - 1]) + ms[|ms| - 1].files[..j], wrote)
  }

  ghost predicate Inv(c: Setting, s: State)
  {
    && (forall k :: k in s.disk.entries ==> Complete(c, k, s.disk.entries[k]))
    && (forall p :: p in s.procs ==> ProcOk(c, s.disk, s.procs[p]))
  }

  /** Entries that are visible stay as they are. */
  ghost predicate EntriesStay(d: Disk, d1: Disk)
  {
    forall k :: k in d.entries ==> k in d1.entries && d1.entries[k] == d.entries[k]
  }

  lemma {:induction false} StoreKeeps(c: Setting, d: Disk, pr: Proc, d1: Disk, pr1: Proc)
    requires ProcOk(c, d, pr) && StoreStep(c, d, pr, d1, pr1)
    requires forall k :: k in d.entries ==> Complete(c, k, d.entries[k])
    ensures EntriesStay(d, d1) && ProcOk(c, d1, pr1)
    ensures forall k :: k in d1.entries ==> Complete(c, k, d1.entries[k])
  {
  }

  lemma {:induction false} WroteOne(c: Setting, before: seq<File>, files: seq<File>, j: nat, data: Data,
                                    wrote: seq<(string, Data)>)
    requires j < |files| && Wrote(c, before + files[..j], wrote) && Matches(c, data, files[j])
    ensures Wrote(c, before + files[..j + 1], wrote + [(files[j].path, data)])
  {
    assert before + files[..j + 1] == (before + files[..j]) + [files[j]];
  }

  lemma {:induction false} FirstOf(ms: seq<Manifest>, next: Manifest)
    ensures (ms + [next])[..|ms|] == ms && AllFiles(ms) + next.files[..0] == AllFiles(ms)
  {
  }

  lemma {:induction false} LastOf(ms: seq<Manifest>)
    requires ms != []
    ensures AllFiles(ms[..|ms| - 1]) + ms[|ms| - 1].files[..|ms[|ms| - 1].files|] == AllFiles(ms)
  {
    assert ms[|ms| - 1].files[..|ms[|ms| - 1].files|] == ms[|ms| - 1].files;
  }

  lemma {:induction false} ReplayKeeps(c: Setting, d: Disk, pr: Proc, d1: Disk, pr1: Proc)
    requires ProcOk(c, d, pr) && ReplayStep(c, d, pr, d1, pr1)
    ensures d1.entries == d.entries && d1.blobs == d.blobs && ProcOk(c, d1, pr1)
  {
    hide Wrote, Matches, AllFiles;
    match pr
    case HasText(_, ms, next, wrote) => FirstOf(ms, next);
    case Copying(_, ms, j, wrote) => LastOf(ms);
    case HasBlob(_, ms, j, data, wrote) => WroteOne(c, AllFiles(ms[..|ms| - 1]), ms[|ms| - 1].files, j, data, wrote);
    case Idle => assert Wrote(c, AllFiles([]), []) by { NothingWritten(c); }
    case _ =>
  }

  lemma {:induction false} NothingWritten(c: Setting)
    ensures Wrote(c, AllFiles([]), [])
  {
  }

  lemma {:induction false} OthersKept(c: Setting, d: Disk, d1: Disk, pr: Proc)
    requires ProcOk(c, d, pr) && EntriesStay(d, d1)
    ensures ProcOk(c, d1, pr)
  {
  }

  /** Every step keeps the invariant, and no step changes or removes a visible entry. */
  lemma {:induction false} StepSafe(c: Setting, s: State, s1: State)
    requires Inv(c, s) && Next(c, s, s1)
    ensures Inv(c, s1) && EntriesStay(s.disk, s1.disk)
  {
    if Damage(s, s1) {
      forall p | p in s1.procs ensures ProcOk(c, s1.disk, s1.procs[p]) { OthersKept(c, s.disk, s1.disk, s.procs[p]); }
    } else {
      var p, pr1 :| ProcStep(c, s, s1, p, pr1);
      if StoreStep(c, s.disk, s.procs[p], s1.disk, pr1) {
        StoreKeeps(c, s.disk, s.procs[p], s1.disk, pr1);
      } else {
        ReplayKeeps(c, s.disk, s.procs[p], s1.disk, pr1);
      }
      forall q | q in s1.procs ensures ProcOk(c, s1.disk, s1.procs[q]) {
        if q != p { OthersKept(c, s.disk, s1.disk, s.procs[q]); }
      }
    }
  }

  // ----- whole runs -----

  ghost predicate Run(c: Setting, run: seq<State>)
  {
    run != [] && Start(run[0]) && forall i :: 0 <= i < |run| - 1 ==> Next(c, run[i], run[i + 1])
  }

  /** In every run every visible entry is complete, and it is there, unchanged, ever after. */
  lemma {:induction false} RunSafe(c: Setting, run: seq<State>, i: nat, j: nat)
    requires Run(c, run) && i <= j < |run|
    ensures Inv(c, run[i]) && Inv(c, run[j]) && EntriesStay(run[i].disk, run[j].disk)
    decreases j
  {
    if i < j {
      RunSafe(c, run, i, j - 1);
      assert Next(c, run[j - 1], run[j]);
      StepSafe(c, run[j - 1], run[j]);
    } else if i > 0 {
      RunSafe(c, run, i - 1, i - 1);
      assert Next(c, run[i - 1], run[i]);
      StepSafe(c, run[i - 1], run[i]);
    }
  }

  /** A replay that reports success has written exactly the files of the wanted entries, each
      with data of the recorded size and digest. */
  lemma {:induction false} HitWroteManifests(c: Setting, run: seq<State>, i: nat, p: nat)
    requires Run(c, run) && i < |run| && p in run[i].procs && run[i].procs[p].Hit?
    ensures var pr := run[i].procs[p];
      |pr.ms| == |pr.wanted| && ReadFrom(run[i].disk, pr.wanted, pr.ms) && Wrote(c, AllFiles(pr.ms), pr.wrote)
  {
    RunSafe(c, run, i, i);
    assert ProcOk(c, run[i].disk, run[i].procs[p]);
  }

  /** With a collision-free hash the data is what the store of the entry was given. */
  lemma {:induction false} HitWroteStored(c: Setting, run: seq<State>, i: nat, p: nat, n: nat)
    requires Run(c, run) && i < |run| && p in run[i].procs && run[i].procs[p].Hit?
    requires forall a, b :: c.hash(a) == c.hash(b) ==> a == b
    requires n < |run[i].procs[p].ms|
    ensures var m := run[i].procs[p].ms[n];
      exists contents :: Made(c, m, contents) &&
        forall k :: 0 <= k < |m.files| ==> (m.files[k].path, contents[k]) in run[i].procs[p].wrote
  {
    HitWroteManifests(c, run, i, p);
    RunSafe(c, run, i, i);
    var pr := run[i].procs[p];
    var m := pr.ms[n];
    assert Complete(c, pr.wanted[n].key, run[i].disk.entries[pr.wanted[n].key]);
    var contents :| Made(c, m, contents);
    forall k | 0 <= k < |m.files| ensures (m.files[k].path, contents[k]) in pr.wrote {
      var x := FileAt(pr.ms, n, k);
      assert Matches(c, pr.wrote[x].1, m.files[k]);
      assert pr.wrote[x] == (m.files[k].path, contents[k]);
    }
  }

  lemma {:induction false} FileAt(ms: seq<Manifest>, n: nat, k: nat) returns (x: nat)
    requires n < |ms| && k < |ms[n].files|
    ensures x < |AllFiles(ms)| && AllFiles(ms)[x] == ms[n].files[k]
    decreases |ms|
  {
    if n == |ms| - 1 {
      x := |AllFiles(ms[..n])| + k;
    } else {
      x := FileAt(ms[..|ms| - 1], n, k);
    }
  }
}
