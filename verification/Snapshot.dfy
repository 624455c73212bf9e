/** pkg/autoresearch/snapshot.go: copying files aside and putting them back. */
module Snapshot {
  import opened Text
  import opened Disk

  /** One captured file. In-memory snapshots carry data; loaded ones name a stored copy. */
  datatype FileState = FileState(path: Path, existed: bool, data: Option<Content>, stored: Option<Path>)

  function CaptureFile(disk: Files, path: Path): FileState {
    FileState(path, path in disk, if path in disk then Some(disk[path]) else None, None)
  }

  function CaptureAll(disk: Files, paths: seq<Path>): (r: seq<FileState>)
    ensures |r| == |paths|
    ensures forall i :: 0 <= i < |paths| ==> r[i] == CaptureFile(disk, paths[i])
  {
    if paths == [] then [] else [CaptureFile(disk, paths[0])] + CaptureAll(disk, paths[1..])
  }

  /** The bytes a restore would write, if it can find them. */
  function SavedContent(f: FileState, disk: Files): Option<Content> {
    if f.data.Some? then f.data
    else if f.stored.Some? && f.stored.value in disk then Some(disk[f.stored.value])
    else None
  }

  /** restore of one file; an unreadable source leaves the disk alone. */
  function RestoreFile(f: FileState, disk: Files): Files {
    if !f.existed then disk - {f.path}
    else
      var c := SavedContent(f, disk);
      if c.Some? then disk[f.path := c.value] else disk
  }

  /** Restore: every file in turn, errors joined rather than fatal. */
  function RestoreAll(fs: seq<FileState>, disk: Files): Files {
    if fs == [] then disk else RestoreAll(fs[1..], RestoreFile(fs[0], disk))
  }

  // ---- the durable form ----------------------------------------------------

  function BaseName(path: Path): string { if path.Project? then path.name else "" }

  function CopyPath(i: nat, f: FileState): Path { Copy(i, BaseName(f.path)) }

  function RecordOf(i: nat, f: FileState): FileRecord {
    FileRecord(f.path, f.existed, if f.existed then Some(CopyPath(i, f)) else None)
  }

  function RecordsOf(fs: seq<FileState>, n: nat): (r: seq<FileRecord>)
    requires n <= |fs|
    ensures |r| == n
    ensures forall i :: 0 <= i < n ==> r[i] == RecordOf(i, fs[i])
  {
    if n == 0 then [] else RecordsOf(fs, n - 1) + [RecordOf(n - 1, fs[n - 1])]
  }

  function LoadRecord(r: FileRecord): FileState {
    FileState(r.path, r.existed, None, r.stored)
  }

  function LoadRecords(rs: seq<FileRecord>): (fs: seq<FileState>)
    ensures |fs| == |rs|
    ensures forall i :: 0 <= i < |rs| ==> fs[i] == LoadRecord(rs[i])
  {
    if rs == [] then [] else [LoadRecord(rs[0])] + LoadRecords(rs[1..])
  }

  predicate CopyPresent(r: FileRecord, disk: Files) {
    r.existed ==> r.stored.Some? && r.stored.value in disk
  }

  /** LoadSnapshot: the manifest, provided every copy it lists is still there. */
  function LoadSnapshot(disk: Files): Option<seq<FileState>> {
    if Manifest !in disk || !disk[Manifest].Records? then None
    else
      var rs := disk[Manifest].files;
      if exists i :: 0 <= i < |rs| && !CopyPresent(rs[i], disk) then None
      else Some(LoadRecords(rs))
  }

  /** A file that existed has a copy that bears its number and its name, so no two share one. */
  lemma CopyNames(i: nat, f: FileState, j: nat, g: FileState)
    requires f.path.Project? && f.existed && g.existed && i != j
    ensures RecordOf(i, f).stored == Some(Copy(i, f.path.name)) && RecordOf(i, f).stored != RecordOf(j, g).stored
  {
  }

  // ---- exactness of a restore ---------------------------------------------

  /** Two disks hold the same thing at a path. */
  predicate SameAt(a: Files, b: Files, p: Path) {
    (p in a <==> p in b) && (p in a ==> a[p] == b[p])
  }

  /** Restoring f onto disk produces what target holds at f.path. */
  ghost predicate Recalls(f: FileState, disk: Files, target: Files) {
    && f.path.Project?
    && (f.existed <==> f.path in target)
    && (f.existed ==> SavedContent(f, disk) == Some(target[f.path]))
    && (f.data.None? && f.existed ==> f.stored.Some? && InSnapshot(f.stored.value))
  }

  predicate Touches(fs: seq<FileState>, p: Path) {
    exists i :: 0 <= i < |fs| && fs[i].path == p
  }

  /** Every captured file recalls target, and nothing else differs from it. */
  ghost predicate Undoes(fs: seq<FileState>, disk: Files, target: Files) {
    && (forall i :: 0 <= i < |fs| ==> Recalls(fs[i], disk, target))
    && (forall p :: !Touches(fs, p) ==> SameAt(disk, target, p))
  }

  lemma UndoesStep(fs: seq<FileState>, disk: Files, target: Files)
    requires fs != [] && Undoes(fs, disk, target)
    ensures Undoes(fs[1..], RestoreFile(fs[0], disk), target)
  {
    var rest, disk' := fs[1..], RestoreFile(fs[0], disk);
    assert Recalls(fs[0], disk, target);
    forall i | 0 <= i < |rest| ensures Recalls(rest[i], disk', target) {
      assert Recalls(fs[i + 1], disk, target);
    }
    forall p | !Touches(rest, p) ensures SameAt(disk', target, p) {
      if p != fs[0].path {
        forall i | 0 <= i < |fs| ensures fs[i].path != p {
          if i > 0 {
            assert rest[i - 1] == fs[i];
          }
        }
        assert SameAt(disk, target, p);
      }
    }
  }

  /** Restoring a set of files that all recall target, onto a disk that differs from target
      at most at those files, gives exactly target: content, presence and absence. */
  lemma {:induction false} RestoreExact(fs: seq<FileState>, disk: Files, target: Files)
    requires Undoes(fs, disk, target)
    ensures RestoreAll(fs, disk) == target
  {
    if fs == [] {
      forall p ensures p in disk <==> p in target
        ensures p in disk ==> disk[p] == target[p]
      {
        assert !Touches(fs, p);
        assert SameAt(disk, target, p);
      }
    } else {
      UndoesStep(fs, disk, target);
      RestoreExact(fs[1..], RestoreFile(fs[0], disk), target);
    }
  }

  lemma UndoesSettled(fs: seq<FileState>, disk: Files, target: Files)
    requires Undoes(fs, disk, target)
    ensures Undoes(fs, target, target)
  {
    forall i | 0 <= i < |fs| ensures Recalls(fs[i], target, target) {
      var f := fs[i];
      assert Recalls(f, disk, target);
      if f.existed && f.data.None? {
        var p := f.stored.value;
        forall j | 0 <= j < |fs| ensures fs[j].path != p {
          assert Recalls(fs[j], disk, target);
        }
        assert SameAt(disk, target, p);
      }
    }
  }

  /** Restoring twice equals restoring once, even onto a half-restored disk. */
  lemma RestoreTwice(fs: seq<FileState>, disk: Files, target: Files)
    requires Undoes(fs, disk, target)
    ensures RestoreAll(fs, RestoreAll(fs, disk)) == RestoreAll(fs, disk)
  {
    RestoreExact(fs, disk, target);
    UndoesSettled(fs, disk, target);
    RestoreExact(fs, target, target);
  }

  /** disk and target hold the same everywhere outside paths. */
  ghost predicate DiffersOnlyAt(disk: Files, target: Files, paths: seq<Path>) {
    forall p :: p !in paths ==> SameAt(disk, target, p)
  }

  ghost predicate AllProject(paths: seq<Path>) {
    forall p :: p in paths ==> p.Project?
  }

  lemma TouchesPaths(fs: seq<FileState>, paths: seq<Path>, p: Path)
    requires |fs| == |paths| && forall i :: 0 <= i < |fs| ==> fs[i].path == paths[i]
    ensures Touches(fs, p) <==> p in paths
  {
    if p in paths {
      var i :| 0 <= i < |paths| && paths[i] == p;
      assert fs[i].path == p;
    }
  }

  /** What Capture took from a disk, Restore puts back, whatever happened to those files. */
  lemma CaptureRestore(target: Files, paths: seq<Path>, disk: Files)
    requires AllProject(paths) && DiffersOnlyAt(disk, target, paths)
    ensures RestoreAll(CaptureAll(target, paths), disk) == target
  {
    var fs := CaptureAll(target, paths);
    forall p | !Touches(fs, p) ensures SameAt(disk, target, p) {
      TouchesPaths(fs, paths, p);
    }
    assert Undoes(fs, disk, target);
    RestoreExact(fs, disk, target);
  }

  // ---- the persisted snapshot ---------------------------------------------

  /** saved holds the complete durable snapshot of fs. */
  ghost predicate Holds(saved: Files, fs: seq<FileState>) {
    && Manifest in saved && saved[Manifest] == Records(RecordsOf(fs, |fs|))
    && forall i :: 0 <= i < |fs| && fs[i].existed ==>
         CopyPath(i, fs[i]) in saved && Some(saved[CopyPath(i, fs[i])]) == fs[i].data
  }

  /** Loading what the disk holds and restoring it gives target, once or twice. */
  ghost predicate Recovers(disk: Files, target: Files) {
    && LoadSnapshot(disk).Some?
    && var fs := LoadSnapshot(disk).value;
       RestoreAll(fs, disk) == target && RestoreAll(fs, RestoreAll(fs, disk)) == target
  }

  /** From any disk that still holds the snapshot of target's files and differs from target
      only at those files, loading and restoring recovers target exactly. */
  lemma LoadRestore(target: Files, paths: seq<Path>, disk: Files)
    requires AllProject(paths) && DiffersOnlyAt(disk, target, paths)
    requires Holds(disk, CaptureAll(target, paths))
    ensures Recovers(disk, target)
    ensures Undoes(LoadSnapshot(disk).value, disk, target)
    ensures forall p :: Touches(LoadSnapshot(disk).value, p) ==> p in paths
  {
    var fs := CaptureAll(target, paths);
    var rs := RecordsOf(fs, |fs|);
    forall i | 0 <= i < |rs| ensures CopyPresent(rs[i], disk) {
      assert rs[i] == RecordOf(i, fs[i]);
    }
    var loaded := LoadRecords(rs);
    assert LoadSnapshot(disk) == Some(loaded);
    forall i | 0 <= i < |loaded| ensures loaded[i].path == paths[i] && Recalls(loaded[i], disk, target) {
      assert loaded[i] == LoadRecord(RecordOf(i, fs[i]));
      assert fs[i] == CaptureFile(target, paths[i]);
    }
    forall p ensures Touches(loaded, p) <==> p in paths {
      TouchesPaths(loaded, paths, p);
    }
    forall p | !Touches(loaded, p) ensures SameAt(disk, target, p) {
    }
    assert Undoes(loaded, disk, target);
    RestoreExact(loaded, disk, target);
    RestoreTwice(loaded, disk, target);
  }

  // ---- crashing inside Persist --------------------------------------------

  /** If only snapshot files were removed so far, a loadable snapshot is the earlier one, whole:
      same records, same copies. */
  lemma CrashWhileRemoving(before: Files, now: Files)
    requires forall p :: p in now ==> p in before && now[p] == before[p]
    requires LoadSnapshot(now).Some?
    ensures LoadSnapshot(before) == LoadSnapshot(now)
    ensures forall i :: 0 <= i < |LoadSnapshot(now).value| && LoadSnapshot(now).value[i].existed ==>
              SavedContent(LoadSnapshot(now).value[i], now).Some?
              && SavedContent(LoadSnapshot(now).value[i], now) == SavedContent(LoadSnapshot(before).value[i], before)
  {
    var rs := now[Manifest].files;
    assert before[Manifest] == now[Manifest];
    forall i | 0 <= i < |rs| ensures CopyPresent(rs[i], before) && LoadRecords(rs)[i] == LoadRecord(rs[i]) {
      assert CopyPresent(rs[i], now);
    }
  }

  /** Nothing outside the snapshot directory differs. */
  ghost predicate SameProject(a: Files, b: Files) {
    forall p: Path :: p.Project? ==> SameAt(a, b, p)
  }

  /** The stored name Persist stamps on a captured file. */
  function Stamp(i: nat, f: FileState): FileState { f.(stored := RecordOf(i, f).stored) }

  /** A state a crash may leave behind: nothing to load, or exactly the earlier snapshot. */
  ghost predicate CrashSafe(now: Files, before: Files) {
    LoadSnapshot(now).Some? ==>
      && LoadSnapshot(now) == LoadSnapshot(before)
      && var fs := LoadSnapshot(now).value;
         forall i :: 0 <= i < |fs| && fs[i].existed ==>
           SavedContent(fs[i], now).Some? && SavedContent(fs[i], now) == SavedContent(fs[i], before)
  }

  /** A state a crash inside Restore may leave behind. */
  ghost predicate PartlyRestored(fs: seq<FileState>, before: Files, d: Files) {
    exists j :: 0 <= j <= |fs| && d == RestoreAll(fs[..j], before)
  }

  lemma {:induction false} RestoreSnoc(fs: seq<FileState>, f: FileState, disk: Files)
    ensures RestoreAll(fs + [f], disk) == RestoreFile(f, RestoreAll(fs, disk))
  {
    if fs == [] {
      assert RestoreAll([f], disk) == RestoreAll([], RestoreFile(f, disk));
    } else {
      assert (fs + [f])[1..] == fs[1..] + [f];
      RestoreSnoc(fs[1..], f, RestoreFile(fs[0], disk));
    }
  }

  lemma {:induction false} PartlyUndoes(fs: seq<FileState>, disk: Files, target: Files, j: nat)
    requires Undoes(fs, disk, target) && j <= |fs|
    ensures Undoes(fs, RestoreAll(fs[..j], disk), target)
  {
    if j > 0 {
      PartlyUndoes(fs, disk, target, j - 1);
      RestoreSnoc(fs[..j - 1], fs[j - 1], disk);
      assert fs[..j] == fs[..j - 1] + [fs[j - 1]];
      OneMoreUndone(fs, RestoreAll(fs[..j - 1], disk), target, j - 1);
    }
  }

  lemma OneMoreUndone(fs: seq<FileState>, disk: Files, target: Files, j: nat)
    requires Undoes(fs, disk, target) && j < |fs|
    ensures Undoes(fs, RestoreFile(fs[j], disk), target)
  {
    var disk' := RestoreFile(fs[j], disk);
    assert Recalls(fs[j], disk, target);
    forall i | 0 <= i < |fs| ensures Recalls(fs[i], disk', target) {
      assert Recalls(fs[i], disk, target);
    }
    forall p | !Touches(fs, p) ensures SameAt(disk', target, p) {
      assert fs[j].path != p;
      assert SameAt(disk, target, p);
    }
  }

  /** A crash in the middle of a restore costs nothing: restoring again finishes the job. */
  lemma CrashWhileRestoring(fs: seq<FileState>, disk: Files, target: Files, d: Files)
    requires Undoes(fs, disk, target) && PartlyRestored(fs, disk, d)
    ensures RestoreAll(fs, d) == target
  {
    var j :| 0 <= j <= |fs| && d == RestoreAll(fs[..j], disk);
    PartlyUndoes(fs, disk, target, j);
    RestoreExact(fs, d, target);
  }

  /** The files a restore can put back when some are stuck. */
  function Freed(fs: seq<FileState>, stuck: set<Path>): seq<FileState> {
    if fs == [] then []
    else Freed(fs[..|fs| - 1], stuck) + if fs[|fs| - 1].path in stuck then [] else [fs[|fs| - 1]]
  }

  lemma {:induction false} FreedAll(fs: seq<FileState>, stuck: set<Path>)
    requires forall i :: 0 <= i < |fs| ==> fs[i].path !in stuck
    ensures Freed(fs, stuck) == fs
  {
    if fs != [] {
      var front := fs[..|fs| - 1];
      FreedAll(front, stuck);
      assert fs == front + [fs[|fs| - 1]];
    }
  }

  lemma {:induction false} FreedPrefix(fs: seq<FileState>, stuck: set<Path>, i: nat)
    requires i <= |fs|
    ensures Freed(fs[..i], stuck) <= Freed(fs, stuck)
  {
    if i < |fs| {
      FreedPrefix(fs[..|fs| - 1], stuck, i);
      assert fs[..|fs| - 1][..i] == fs[..i];
    } else {
      assert fs[..i] == fs;
    }
  }

  /** One more file of a restore, stuck or put back. */
  lemma FreedStep(fs: seq<FileState>, stuck: set<Path>, i: nat, disk: Files)
    requires i < |fs|
    ensures var front := RestoreAll(Freed(fs[..i], stuck), disk);
            var next := RestoreAll(Freed(fs[..i + 1], stuck), disk);
            && next == (if fs[i].path in stuck then front else RestoreFile(fs[i], front))
            && PartlyRestored(Freed(fs, stuck), disk, next)
  {
    var pre := fs[..i + 1];
    assert pre[..|pre| - 1] == fs[..i] && pre[|pre| - 1] == fs[i];
    assert Freed(fs[..i], stuck) + [] == Freed(fs[..i], stuck);
    RestoreSnoc(Freed(fs[..i], stuck), fs[i], disk);
    FreedPrefix(fs, stuck, i + 1);
    var done := Freed(fs[..i + 1], stuck);
    assert Freed(fs, stuck)[..|done|] == done;
  }

  /** LoadSnapshot moves a manifest it cannot parse aside, if it can. */
  function SetAside(disk: Files, renames: bool): Files {
    if Manifest in disk && !disk[Manifest].Records? && renames
    then (disk - {Manifest})[CorruptManifest := disk[Manifest]]
    else disk
  }

  /** The snapshot entries of a disk. */
  function SnapshotKeys(disk: Files): set<Path> { set p | p in disk && InSnapshot(p) }

  /** A snapshot as the source handles it: files captured, then given stored copies. */
  class SnapshotStore {
    var files: seq<FileState>

    constructor ()
      ensures files == []
    {
      files := [];
    }

    /** Capture; a path in refused (unreadable, or past the size cap) aborts it. */
    method Capture(fs: FileSystem, paths: seq<Path>, refused: set<Path>) returns (ok: bool)
      modifies this
      ensures ok <==> forall p :: p in paths ==> p !in refused
      ensures ok ==> files == CaptureAll(fs.files, paths)
    {
      files := [];
      for i := 0 to |paths|
        invariant files == CaptureAll(fs.files, paths[..i])
        invariant forall p :: p in paths[..i] ==> p !in refused
      {
        if paths[i] in refused {
          return false;
        }
        files := files + [CaptureFile(fs.files, paths[i])];
        CaptureSnoc(fs.files, paths[..i], paths[i]);
        assert paths[..i + 1] == paths[..i] + [paths[i]];
      }
      assert paths[..|paths|] == paths;
      ok := true;
    }

    /** Restore: a file that cannot be written or removed, or whose copy is gone, is reported and
        the others are put back. Every state it passes through has some prefix of those put back. */
    method Restore(fs: FileSystem, stuck: set<Path>) returns (failed: seq<Path>)
      requires fs.Valid()
      modifies fs
      ensures fs.Valid() && fs.files == RestoreAll(Freed(files, stuck), old(fs.files))
      ensures forall f :: f in files && f.path in stuck ==> f.path in failed
      ensures (forall f :: f in files ==> f.path !in stuck && f.data.Some?) ==> failed == []
      ensures |fs.history| >= |old(fs.history)| && fs.history[..|old(fs.history)|] == old(fs.history)
      ensures forall i :: |old(fs.history)| <= i < |fs.history| ==>
                PartlyRestored(Freed(files, stuck), old(fs.files), fs.history[i])
    {
      ghost var n := |fs.history|;
      failed := [];
      for i := 0 to |files|
        invariant fs.Valid()
        invariant fs.files == RestoreAll(Freed(files[..i], stuck), old(fs.files))
        invariant forall f :: f in files[..i] && f.path in stuck ==> f.path in failed
        invariant (forall f :: f in files[..i] ==> f.path !in stuck && f.data.Some?) ==> failed == []
        invariant |fs.history| >= n && fs.history[..n] == old(fs.history)
        invariant forall j :: n <= j < |fs.history| ==>
                    PartlyRestored(Freed(files, stuck), old(fs.files), fs.history[j])
      {
        var f := files[i];
        FreedStep(files, stuck, i, old(fs.files));
        assert files[..i + 1] == files[..i] + [f];
        if f.path in stuck {
          failed := failed + [f.path];
        } else if !f.existed {
          fs.Remove(f.path);
        } else {
          var c := SavedContent(f, fs.files);
          if c.Some? {
            fs.Write(f.path, c.value);
          } else {
            failed := failed + [f.path];
          }
        }
      }
      assert files[..|files|] == files;
    }

    /** Persist: clear the directory, copy every file, write the manifest last. The write that
        failAt names may fail, a copy by its index or the manifest after the last copy; then no
        snapshot is left to load. Each state the disk passes through is crash-safe with respect to
        the one before the call. */
    method Persist(fs: FileSystem, failAt: Option<nat>) returns (ok: bool)
      requires fs.Valid()
      requires forall i :: 0 <= i < |files| ==> files[i].path.Project? && files[i].existed == files[i].data.Some?
      modifies fs, this
      ensures ok <==> !WriteFails(old(files), failAt)
      ensures ok ==> |files| == |old(files)| && forall i :: 0 <= i < |files| ==> files[i] == Stamp(i, old(files)[i])
      ensures fs.Valid() && SameProject(fs.files, old(fs.files))
      ensures ok ==> Holds(fs.files, old(files)) && |fs.history| > |old(fs.history)|
      ensures !ok ==> LoadSnapshot(fs.files).None?
      ensures |fs.history| >= |old(fs.history)| && fs.history[..|old(fs.history)|] == old(fs.history)
      ensures forall i :: |old(fs.history)| <= i < |fs.history| - (if ok then 1 else 0) ==>
                CrashSafe(fs.history[i], old(fs.files))
      ensures forall i :: |old(fs.history)| <= i < |fs.history| ==>
                SameProject(fs.history[i], old(fs.files))
    {
      ClearSnapshot(fs);
      ok := CopyFiles(fs, old(fs.files), failAt);
      if !ok || failAt == Some(|files|) {
        return false;
      }
      RecordsStamped(old(files), files, |files|);
      fs.Write(Manifest, Records(RecordsOf(files, |files|)));
    }

    /** os.RemoveAll of the snapshot directory, one entry at a time in any order. */
    method ClearSnapshot(fs: FileSystem)
      requires fs.Valid()
      modifies fs
      ensures fs.Valid() && SameProject(fs.files, old(fs.files)) && SnapshotKeys(fs.files) == {}
      ensures |fs.history| >= |old(fs.history)| && fs.history[..|old(fs.history)|] == old(fs.history)
      ensures forall i :: |old(fs.history)| <= i < |fs.history| ==>
                CrashSafe(fs.history[i], old(fs.files)) && SameProject(fs.history[i], old(fs.files))
    {
      ghost var before, n := fs.files, |fs.history|;
      while SnapshotKeys(fs.files) != {}
        invariant fs.Valid() && |fs.history| >= n && fs.history[..n] == old(fs.history)
        invariant forall p :: p in fs.files ==> p in before && fs.files[p] == before[p]
        invariant SameProject(fs.files, before)
        invariant forall i :: n <= i < |fs.history| ==>
                    CrashSafe(fs.history[i], before) && SameProject(fs.history[i], before)
        decreases |SnapshotKeys(fs.files)|
      {
        var p :| p in SnapshotKeys(fs.files);
        assert SnapshotKeys(fs.files - {p}) == SnapshotKeys(fs.files) - {p};
        fs.Remove(p);
        if LoadSnapshot(fs.files).Some? {
          CrashWhileRemoving(before, fs.files);
        }
      }
    }

    /** Write the copies while no manifest exists, stamping each file with its copy's name, until
        one fails. */
    method CopyFiles(fs: FileSystem, ghost before: Files, failAt: Option<nat>) returns (ok: bool)
      requires fs.Valid() && SameProject(fs.files, before) && SnapshotKeys(fs.files) == {}
      requires forall i :: 0 <= i < |files| ==> files[i].path.Project? && files[i].existed == files[i].data.Some?
      modifies fs, this
      ensures |files| == |old(files)|
      ensures ok <==> !(failAt.Some? && failAt.value < |files| && old(files)[failAt.value].existed)
      ensures ok ==> forall i :: 0 <= i < |files| ==> files[i] == Stamp(i, old(files)[i])
      ensures fs.Valid() && SameProject(fs.files, before) && Manifest !in fs.files
      ensures forall j :: ok && 0 <= j < |files| && old(files)[j].existed ==>
                CopyPath(j, old(files)[j]) in fs.files
                && Some(fs.files[CopyPath(j, old(files)[j])]) == old(files)[j].data
      ensures |fs.history| >= |old(fs.history)| && fs.history[..|old(fs.history)|] == old(fs.history)
      ensures forall i :: |old(fs.history)| <= i < |fs.history| ==>
                CrashSafe(fs.history[i], before) && SameProject(fs.history[i], before)
    {
      ghost var n := |fs.history|;
      assert Manifest !in SnapshotKeys(fs.files);
      for i := 0 to |files|
        invariant |files| == |old(files)|
        invariant forall j :: 0 <= j < i ==> files[j] == Stamp(j, old(files)[j])
        invariant forall j :: i <= j < |files| ==> files[j] == old(files)[j]
        invariant failAt.Some? && failAt.value < i ==> !old(files)[failAt.value].existed
        invariant fs.Valid() && |fs.history| >= n && fs.history[..n] == old(fs.history)
        invariant Manifest !in fs.files && SameProject(fs.files, before)
        invariant forall j :: 0 <= j < i && old(files)[j].existed ==>
                    CopyPath(j, old(files)[j]) in fs.files
                    && Some(fs.files[CopyPath(j, old(files)[j])]) == old(files)[j].data
        invariant forall i :: n <= i < |fs.history| ==>
                    CrashSafe(fs.history[i], before) && SameProject(fs.history[i], before)
      {
        if files[i].existed {
          if failAt == Some(i) {
            return false;
          }
          fs.Write(CopyPath(i, files[i]), files[i].data.value);
          files := files[i := files[i].(stored := Some(CopyPath(i, files[i])))];
        } else {
          files := files[i := files[i].(stored := None)];
        }
      }
      ok := true;
    }
  }

  /** Whether a write of this snapshot fails: a copy that is made at all, or the manifest. */
  predicate WriteFails(fs: seq<FileState>, failAt: Option<nat>) {
    failAt.Some? && (failAt.value == |fs| || (failAt.value < |fs| && fs[failAt.value].existed))
  }

  lemma RecordsStamped(fs: seq<FileState>, stamped: seq<FileState>, n: nat)
    requires n <= |fs| == |stamped|
    requires forall i :: 0 <= i < |fs| ==> stamped[i] == Stamp(i, fs[i])
    ensures RecordsOf(stamped, n) == RecordsOf(fs, n)
  {
    forall i | 0 <= i < n ensures RecordsOf(stamped, n)[i] == RecordsOf(fs, n)[i] {
      assert RecordOf(i, stamped[i]) == RecordOf(i, fs[i]);
    }
  }

  lemma CaptureSnoc(disk: Files, paths: seq<Path>, p: Path)
    ensures CaptureAll(disk, paths + [p]) == CaptureAll(disk, paths) + [CaptureFile(disk, p)]
  {
  }
}
