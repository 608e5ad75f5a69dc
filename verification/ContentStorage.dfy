/** Bringing a local content directory and the server's copy of it together, in either direction. */
module ContentStorages {
  import opened Prelude
  import opened ContentManifests
  import opened ContentServices
  import Scanner = ContentScanners

  type Files = map<Path, File>

  datatype Error = ContentMissing | Rpc(status: Status)

  function At(files: Files, p: Path): Option<File> {
    if p in files then Some(files[p]) else None
  }

  /** What synchronisation is about: everything but the stored manifest. */
  function Visible(files: Files): Files {
    files - {MANIFEST}
  }

  /**
   * A manifest as scans write it: all visible files with their permissions. Nothing is said about the hashes, which
   * a cached scan may have taken from an older version.
   */
  ghost predicate Scanned(m: Manifest, files: Files) {
    && m.Keys == Visible(files).Keys
    && forall p :: p in m ==> m[p].permissions == Some(files[p].permissions) && m[p].sha256.Some?
  }

  ghost predicate HashesRight(m: Manifest, files: Files, hash: Content -> Hash) {
    forall p :: p in m && p in files ==> m[p].sha256 == Some(hash(files[p].content))
  }

  // ----- One direction of replay -----

  /** Doing to `target` what the change says, with contents from `source` and permissions from its manifest. */
  function Apply(target: Files, source: Files, m: Manifest, c: Change): Files {
    match c.kind
    case REMOVED => target - {c.path}
    case ATTRIBUTES_CHANGED =>
      if c.path in target
        then target[c.path := target[c.path].(permissions := GetPermissionsFromManifest(m, c.path))] else target
    case ADDED => Copied(target, source, m, c.path)
    case MODIFIED => Copied(target, source, m, c.path)
  }

  function Copied(target: Files, source: Files, m: Manifest, p: Path): Files {
    if p in source then target[p := File(source[p].content, GetPermissionsFromManifest(m, p))] else target
  }

  function ApplyAll(target: Files, source: Files, m: Manifest, changes: seq<Change>): Files {
    if changes == [] then target
    else Apply(ApplyAll(target, source, m, changes[..|changes| - 1]), source, m, changes[|changes| - 1])
  }

  function Only(changes: seq<Change>, p: Path): seq<Change> {
    if changes == [] then []
    else
      var front, last := Only(changes[..|changes| - 1], p), changes[|changes| - 1];
      if last.path == p then front + [last] else front
  }

  /** What replaying a diff leaves at `p`. */
  function SyncedAt(target: Files, source: Files, mt: Manifest, ms: Manifest, p: Path): Option<File> {
    match KindAt(mt, ms, p)
    case None => At(target, p)
    case Some(REMOVED) => None
    case Some(ATTRIBUTES_CHANGED) =>
      if p in target && p in source then Some(File(target[p].content, source[p].permissions)) else None
    case Some(ADDED) => At(source, p)
    case Some(MODIFIED) => At(source, p)
  }

  lemma {:induction false} ApplyElsewhere(target: Files, source: Files, m: Manifest, changes: seq<Change>, p: Path)
    requires !Lists(changes, p)
    ensures At(ApplyAll(target, source, m, changes), p) == At(target, p)
    decreases |changes|
  {
    if changes != [] {
      var front := changes[..|changes| - 1];
      assert forall k :: 0 <= k < |front| ==> front[k] == changes[k];
      ApplyElsewhere(target, source, m, front, p);
      assert changes[|changes| - 1].path != p;
    }
  }

  /** Every path listed in the diff is touched once, so it ends as its change says. */
  lemma {:induction false} ApplyAt(target: Files, source: Files, ms: Manifest, changes: seq<Change>, i: nat)
    requires i < |changes| && forall j, k :: 0 <= j < k < |changes| ==> changes[j].path != changes[k].path
    ensures At(ApplyAll(target, source, ms, changes), changes[i].path) ==
            At(Apply(target, source, ms, changes[i]), changes[i].path)
    decreases |changes|
  {
    var n := |changes| - 1;
    var front := changes[..n];
    if i == n {
      assert !Lists(front, changes[i].path);
      ApplyElsewhere(target, source, ms, front, changes[i].path);
      var so := ApplyAll(target, source, ms, front);
      assert At(so, changes[i].path) == At(target, changes[i].path);
    } else {
      ApplyAt(target, source, ms, front, i);
      assert front[i] == changes[i];
      assert changes[n].path != changes[i].path;
    }
  }

  lemma {:induction false} ReplayedDiff(target: Files, source: Files, mt: Manifest, ms: Manifest, changes: seq<Change>,
                                        p: Path)
    requires Scanned(mt, target) && Scanned(ms, source) && IsDiff(changes, mt, ms)
    ensures At(ApplyAll(target, source, ms, changes), p) == SyncedAt(target, source, mt, ms, p)
  {
    if Lists(changes, p) {
      var i :| 0 <= i < |changes| && changes[i].path == p;
      ApplyAt(target, source, ms, changes, i);
    } else {
      ApplyElsewhere(target, source, ms, changes, p);
    }
  }

  /** The changes concern different paths, and find the files they need on either side. */
  ghost predicate Replayable(changes: seq<Change>, target: Files, source: Files) {
    && (forall j, k :: 0 <= j < k < |changes| ==> changes[j].path != changes[k].path)
    && (forall k :: 0 <= k < |changes| && changes[k].kind != REMOVED ==> changes[k].path in source)
    && (forall k :: 0 <= k < |changes| && changes[k].kind in {ATTRIBUTES_CHANGED, MODIFIED, REMOVED} ==>
         changes[k].path in target)
    && (forall k :: 0 <= k < |changes| && changes[k].kind == ADDED ==> changes[k].path !in target)
  }

  lemma {:induction false} DiffReplayable(target: Files, source: Files, mt: Manifest, ms: Manifest,
                                          changes: seq<Change>)
    requires Scanned(mt, target) && Scanned(ms, source) && IsDiff(changes, mt, ms)
    ensures Replayable(changes, target, source)
  {
    forall k | 0 <= k < |changes|
      ensures changes[k].path in mt <==> changes[k].path in target
      ensures changes[k].path in ms <==> changes[k].path in source
    {
      assert KindAt(mt, ms, changes[k].path) == Some(changes[k].kind);
      assert changes[k].path != MANIFEST;
    }
  }

  lemma {:induction false} OneReplayable(target: Files, source: Files, mt: Manifest, ms: Manifest,
                                         changes: seq<Change>, p: Path)
    requires Scanned(mt, target) && Scanned(ms, source) && IsDiff(changes, mt, ms)
    ensures Replayable(Only(changes, p), target, source)
  {
    KeptOnce(changes, p, mt, ms);
    hide Only, IsDiff;
    assert p in mt <==> p in target && p != MANIFEST;
    assert p in ms <==> p in source && p != MANIFEST;
    hide Scanned;
    match KindAt(mt, ms, p)
    case None => assert Replayable([], target, source);
    case Some(kind) => SingleReplayable(Change(kind, p), target, source);
  }

  lemma {:induction false} SingleReplayable(c: Change, target: Files, source: Files)
    requires c.kind != REMOVED ==> c.path in source
    requires c.kind != ADDED <==> c.path in target
    ensures Replayable([c], target, source)
  {
  }

  // ----- The client -----

  class ContentStorage {
    var present: bool
    var local: Files
    const stub: ContentServiceStub

    constructor (present: bool, local: Files, stub: ContentServiceStub)
      ensures this.present == present && this.local == local && this.stub == stub
    {
      this.present, this.local, this.stub := present, local, stub;
    }

    /** One change of a download; the server is only read. */
    method Download(m: Manifest, change: Change)
      requires change.kind != REMOVED ==> change.path in stub.server.files && stub.server.exists_
      requires change.kind != REMOVED ==> stub.server.WellFormed(change.path)
      requires change.kind == ATTRIBUTES_CHANGED ==> change.path in local
      modifies this
      ensures present == old(present)
      ensures local == Apply(old(local), stub.server.files, m, change)
    {
      match change.kind
      case REMOVED =>
        local := local - {change.path};
      case ATTRIBUTES_CHANGED =>
        local := local[change.path := local[change.path].(permissions := GetPermissionsFromManifest(m, change.path))];
      case ADDED | MODIFIED =>
        var content := stub.GetFile(change.path);
        local := local[change.path := File(content.value, GetPermissionsFromManifest(m, change.path))];
    }

    method DownloadAll(m: Manifest, changes: seq<Change>)
      requires stub.server.exists_ && Replayable(changes, local, stub.server.files)
      requires forall p :: p in stub.server.files ==> stub.server.WellFormed(p)
      modifies this
      ensures present == old(present)
      ensures local == ApplyAll(old(local), stub.server.files, m, changes)
    {
      ghost var start := local;
      for i := 0 to |changes|
        invariant present == old(present) && local == ApplyAll(start, stub.server.files, m, changes[..i])
      {
        assert changes[..i + 1][..i] == changes[..i];
        if changes[i].kind == ATTRIBUTES_CHANGED {
          assert !Lists(changes[..i], changes[i].path);
          ApplyElsewhere(start, stub.server.files, m, changes[..i], changes[i].path);
          assert At(local, changes[i].path).Some?;
        }
        Download(m, changes[i]);
      }
      assert changes[..|changes|] == changes;
    }

    method SyncContent(ml: Manifest, ms: Manifest) returns (failure: Option<Error>)
      requires Scanned(ml, local) && Scanned(ms, stub.server.files)
      requires forall p :: p in stub.server.files ==> stub.server.WellFormed(p)
      modifies this
      ensures present == old(present)
      ensures failure == if stub.server.exists_ then None else Some(Rpc(NOT_FOUND))
      ensures failure.Some? ==> local == old(local)
      ensures failure.None? ==> forall p :: At(local, p) == SyncedAt(old(local), stub.server.files, ml, ms, p)
    {
      if !stub.server.exists_ {
        return Some(Rpc(NOT_FOUND));
      }
      var changes := CompareManifests(ml, ms);
      DiffReplayable(local, stub.server.files, ml, ms, changes);
      DownloadAll(ms, changes);
      forall p ensures At(local, p) == SyncedAt(old(local), stub.server.files, ml, ms, p) {
        ReplayedDiff(old(local), stub.server.files, ml, ms, changes, p);
      }
      return None;
    }

    /** Only the target can change. */
    method SyncFile(target: Path, ml: Manifest, ms: Manifest) returns (failure: Option<Error>)
      requires Scanned(ml, local) && Scanned(ms, stub.server.files)
      requires forall p :: p in stub.server.files ==> stub.server.WellFormed(p)
      modifies this
      ensures present == old(present)
      ensures failure == if stub.server.exists_ then None else Some(Rpc(NOT_FOUND))
      ensures forall p :: p != target || failure.Some? ==> At(local, p) == old(At(local, p))
      ensures failure.None? ==> At(local, target) == SyncedAt(old(local), stub.server.files, ml, ms, target)
    {
      if !stub.server.exists_ {
        return Some(Rpc(NOT_FOUND));
      }
      var changes := CompareManifests(ml, ms);
      var wanted := Keep(changes, target);
      OneReplayable(local, stub.server.files, ml, ms, changes, target);
      hide Replayable, IsDiff, Scanned, SyncedAt;
      DownloadAll(ms, wanted);
      forall p
        ensures At(local, p) ==
                if p == target then SyncedAt(old(local), stub.server.files, ml, ms, p) else old(At(local, p))
      {
        OneReplayed(old(local), stub.server.files, ml, ms, changes, target, p);
      }
      return None;
    }

    /** One change of an upload: the server's guards let every call through. */
    method Upload(m: Manifest, change: Change) returns (status: Status)
      requires stub.server.exists_ && stub.server.WellFormed(change.path)
      requires change.kind in {ADDED, MODIFIED} ==> change.path in local
      requires change.kind == ADDED <==> change.path !in stub.server.files
      modifies stub.server
      ensures status == OK
      ensures stub.server.exists_
      ensures stub.server.files == Apply(old(stub.server.files), local, m, change)
    {
      match change.kind
      case ADDED =>
        status := stub.CreateFile(change.path, local[change.path].content);
        if status == OK {
          status := stub.server.SetPermissions(change.path, GetPermissionsFromManifest(m, change.path));
        }
      case MODIFIED =>
        status := stub.UpdateFile(change.path, local[change.path].content);
        if status == OK {
          status := stub.server.SetPermissions(change.path, GetPermissionsFromManifest(m, change.path));
        }
      case ATTRIBUTES_CHANGED =>
        status := stub.server.SetPermissions(change.path, GetPermissionsFromManifest(m, change.path));
      case REMOVED =>
        status := stub.server.DeleteFile(change.path);
    }

    method UpdateContentOnServer(ml: Manifest, ms: Manifest) returns (failure: Option<Error>)
      requires Scanned(ml, local) && Scanned(ms, stub.server.files)
      requires forall p :: p in stub.server.files || p in local ==> stub.server.WellFormed(p)
      modifies stub.server
      ensures stub.server.exists_ == old(stub.server.exists_)
      ensures failure == if !present then Some(ContentMissing)
                         else if !stub.server.exists_ then Some(Rpc(NOT_FOUND)) else None
      ensures failure.Some? ==> stub.server.files == old(stub.server.files)
      ensures failure.None? ==>
                forall p :: At(stub.server.files, p) == SyncedAt(old(stub.server.files), local, ms, ml, p)
    {
      if !present {
        return Some(ContentMissing);
      }
      if !stub.server.exists_ {
        return Some(Rpc(NOT_FOUND));
      }
      var changes := CompareManifests(ms, ml);
      DiffReplayable(stub.server.files, local, ms, ml, changes);
      ghost var start := stub.server.files;
      for i := 0 to |changes|
        invariant stub.server.exists_ && stub.server.files == ApplyAll(start, local, ml, changes[..i])
      {
        assert changes[..i + 1][..i] == changes[..i];
        assert !Lists(changes[..i], changes[i].path);
        ApplyElsewhere(start, local, ml, changes[..i], changes[i].path);
        assert At(stub.server.files, changes[i].path) == At(start, changes[i].path);
        var status := Upload(ml, changes[i]);
        if status != OK {
          return Some(Rpc(status));
        }
      }
      assert changes[..|changes|] == changes;
      forall p ensures At(stub.server.files, p) == SyncedAt(start, local, ms, ml, p) {
        ReplayedDiff(start, local, ms, ml, changes, p);
      }
      return None;
    }
  }

  method Keep(changes: seq<Change>, target: Path) returns (kept: seq<Change>)
    ensures kept == Only(changes, target)
  {
    kept := [];
    for i := 0 to |changes|
      invariant kept == Only(changes[..i], target)
    {
      assert changes[..i + 1][..i] == changes[..i];
      if changes[i].path == target {
        kept := kept + [changes[i]];
      }
    }
    assert changes[..|changes|] == changes;
  }

  lemma {:induction false} OnlyAbsent(changes: seq<Change>, p: Path)
    requires !Lists(changes, p)
    ensures Only(changes, p) == []
    decreases |changes|
  {
    if changes != [] {
      var front := changes[..|changes| - 1];
      assert forall k :: 0 <= k < |front| ==> front[k] == changes[k];
      OnlyAbsent(front, p);
      assert changes[|changes| - 1].path != p;
    }
  }

  lemma {:induction false} OnlyOne(changes: seq<Change>, i: nat)
    requires i < |changes| && forall j, k :: 0 <= j < k < |changes| ==> changes[j].path != changes[k].path
    ensures Only(changes, changes[i].path) == [changes[i]]
    decreases |changes|
  {
    var n := |changes| - 1;
    if i == n {
      OnlyAbsent(changes[..n], changes[i].path);
    } else {
      assert changes[n].path != changes[i].path;
      OnlyOne(changes[..n], i);
    }
  }

  lemma {:induction false} KeptOnce(changes: seq<Change>, target: Path, mt: Manifest, ms: Manifest)
    requires IsDiff(changes, mt, ms)
    ensures Only(changes, target) ==
            match KindAt(mt, ms, target) case Some(kind) => [Change(kind, target)] case None => []
  {
    if Lists(changes, target) {
      var i :| 0 <= i < |changes| && changes[i].path == target;
      OnlyOne(changes, i);
    } else {
      OnlyAbsent(changes, target);
    }
  }

  lemma {:induction false} OneReplayed(target: Files, source: Files, mt: Manifest, ms: Manifest, changes: seq<Change>,
                                       wanted: Path, p: Path)
    requires Scanned(mt, target) && Scanned(ms, source) && IsDiff(changes, mt, ms)
    ensures At(ApplyAll(target, source, ms, Only(changes, wanted)), p) ==
            if p == wanted then SyncedAt(target, source, mt, ms, p) else At(target, p)
  {
    KeptOnce(changes, wanted, mt, ms);
    var only := Only(changes, wanted);
    if only != [] {
      assert only[..0] == [];
    }
  }

  // ----- Convergence -----

  /** Two different versions of a file that the manifests do not tell apart. */
  ghost predicate Masked(target: Files, source: Files, mt: Manifest, ms: Manifest, p: Path) {
    p in mt && p in ms && p in target && p in source
    && mt[p].sha256 == ms[p].sha256 && target[p].content != source[p].content
  }

  /**
   * After a sync in either direction the visible files are those of the source, contents and permissions, exactly
   * when no file is masked. The target's own stored manifest is left alone.
   */
  lemma {:induction false} ConvergesIff(target: Files, source: Files, mt: Manifest, ms: Manifest, result: Files)
    requires Scanned(mt, target) && Scanned(ms, source)
    requires forall p :: At(result, p) == SyncedAt(target, source, mt, ms, p)
    ensures Visible(result) == Visible(source) <==> forall p :: !Masked(target, source, mt, ms, p)
    ensures At(result, MANIFEST) == At(target, MANIFEST)
  {
    assert At(result, MANIFEST) == SyncedAt(target, source, mt, ms, MANIFEST);
    forall p | p != MANIFEST ensures At(result, p) == At(source, p) <==> !Masked(target, source, mt, ms, p) {
      assert p in mt <==> p in target;
      assert p in ms <==> p in source;
    }
    SameWhereIff(result, source);
    assert !Masked(target, source, mt, ms, MANIFEST);
  }

  lemma {:induction false} SameWhereIff(a: Files, b: Files)
    ensures Visible(a) == Visible(b) <==> forall p :: p != MANIFEST ==> At(a, p) == At(b, p)
  {
    if Visible(a) == Visible(b) {
      forall p | p != MANIFEST ensures At(a, p) == At(b, p) {
        assert p in Visible(a) <==> p in a;
        assert p in Visible(b) <==> p in b;
      }
    } else if forall p :: p != MANIFEST ==> At(a, p) == At(b, p) {
      forall p ensures p in Visible(a) <==> p in Visible(b) {
        assert p != MANIFEST ==> At(a, p) == At(b, p);
      }
      forall p | p in Visible(a) ensures Visible(a)[p] == Visible(b)[p] {
        assert At(a, p) == At(b, p);
      }
    }
  }

  /** Right hashes mask nothing unless two contents collide, and a second diff then finds nothing to do. */
  lemma {:induction false} SecondDiffEmpty(target: Files, source: Files, mt: Manifest, ms: Manifest, result: Files,
                                           mr: Manifest, changes: seq<Change>, hash: Content -> Hash)
    requires Scanned(mt, target) && Scanned(ms, source)
    requires HashesRight(mt, target, hash) && HashesRight(ms, source, hash)
    requires forall p :: p in target && p in source && hash(target[p].content) == hash(source[p].content) ==>
                           target[p].content == source[p].content
    requires forall p :: At(result, p) == SyncedAt(target, source, mt, ms, p)
    requires Scanned(mr, result) && HashesRight(mr, result, hash) && IsDiff(changes, mr, ms)
    ensures Visible(result) == Visible(source) && changes == []
  {
    ConvergesIff(target, source, mt, ms, result);
    assert Visible(result) == Visible(source);
    assert mr.Keys == ms.Keys;
    forall p | p in mr ensures mr[p].sha256 == ms[p].sha256 && mr[p].permissions == ms[p].permissions {
      assert Visible(result)[p] == Visible(source)[p];
    }
    NoChangesIff(changes, mr, ms);
  }

  /** Different contents of one file that the hash does not tell apart. */
  ghost predicate Collide(a: Files, b: Files, hash: Content -> Hash, p: Path) {
    p != MANIFEST && p in a && p in b && hash(a[p].content) == hash(b[p].content) && a[p].content != b[p].content
  }

  /**
   * Whatever an interrupted sync left, a file cut short by a broken upload included: the next sync, on right hashes,
   * converges exactly when nothing that was left collides with the source.
   */
  lemma {:induction false} InterruptedSyncHealsIff(partial: Files, source: Files, mp: Manifest, ms: Manifest,
                                                   result: Files, hash: Content -> Hash)
    requires Scanned(mp, partial) && Scanned(ms, source)
    requires HashesRight(mp, partial, hash) && HashesRight(ms, source, hash)
    requires forall p :: At(result, p) == SyncedAt(partial, source, mp, ms, p)
    ensures Visible(result) == Visible(source) <==> forall p :: !Collide(partial, source, hash, p)
  {
    ConvergesIff(partial, source, mp, ms, result);
    forall p ensures Masked(partial, source, mp, ms, p) <==> Collide(partial, source, hash, p) {
      assert p in mp <==> p in partial && p != MANIFEST;
      assert p in ms <==> p in source && p != MANIFEST;
    }
  }

  /** In particular a sync that stopped after any number of changes adds no collision. */
  lemma {:induction false} PrefixDoesNotCollide(target: Files, source: Files, mt: Manifest, ms: Manifest,
                                                changes: seq<Change>, i: nat, hash: Content -> Hash, p: Path)
    requires Scanned(mt, target) && Scanned(ms, source) && IsDiff(changes, mt, ms) && i <= |changes|
    requires !Collide(target, source, hash, p)
    ensures !Collide(ApplyAll(target, source, ms, changes[..i]), source, hash, p)
  {
    if Lists(changes[..i], p) {
      var k :| 0 <= k < i && changes[..i][k].path == p;
      ApplyAt(target, source, ms, changes[..i], k);
      assert changes[k].path == p;
    } else {
      ApplyElsewhere(target, source, ms, changes[..i], p);
    }
  }

  // ----- Synchronising with the manifests that scans write -----

  function FilesOf(disk: Scanner.Disk): Files {
    map p | p in disk :: File(disk[p].content, disk[p].permissions)
  }

  lemma {:induction false} FullScanIsScanned(disk: Scanner.Disk, hash: Content -> Hash)
    ensures Scanned(Scanner.FullScan(disk, hash), FilesOf(disk))
    ensures HashesRight(Scanner.FullScan(disk, hash), FilesOf(disk), hash)
  {
    assert Scanner.FullScan(disk, hash).Keys == Visible(FilesOf(disk)).Keys;
  }

  /**
   * A sync from a directory whose scanner missed no edit makes the other side equal to what is on the disk, cached
   * hashes or not.
   */
  lemma {:induction false} SyncAfterScans(interval: int, hash: Content -> Hash, found: Manifest,
                                          scans: seq<Scanner.Scan>, target: Files, mt: Manifest, result: Files)
    requires scans != [] && interval <= scans[0].now + 9_223_372_036_854
    requires forall n: nat, p :: !Scanner.MissedEdit(interval, hash, found, scans, n, p)
    requires Scanned(mt, target) && HashesRight(mt, target, hash)
    requires var source := FilesOf(scans[|scans| - 1].disk);
             && (forall p :: p in target && p in source && hash(target[p].content) == hash(source[p].content) ==>
                               target[p].content == source[p].content)
             && var ms := Scanner.After(interval, hash, found, scans).stored;
                forall p :: At(result, p) == SyncedAt(target, source, mt, ms, p)
    ensures Visible(result) == Visible(FilesOf(scans[|scans| - 1].disk))
  {
    var disk := scans[|scans| - 1].disk;
    Scanner.AllRight(interval, hash, found, scans, |scans| - 1);
    assert scans[..|scans|] == scans;
    FullScanIsScanned(disk, hash);
    var ms := Scanner.FullScan(disk, hash);
    forall p ensures !Masked(target, FilesOf(disk), mt, ms, p) {
    }
    ConvergesIff(target, FilesOf(disk), mt, ms, result);
  }

  /** An edit the scanner missed is not uploaded: the server keeps the version it got before the edit. */
  lemma {:induction false} MissedEditStaysBehind(before: Scanner.Disk, disk: Scanner.Disk, target: Files, mt: Manifest,
                                                 hash: Content -> Hash, p: Path)
    requires Scanner.Disguised(before, disk, hash, p)
    requires Scanned(mt, target) && HashesRight(mt, target, hash) && p in target
             && target[p].content == before[p].content
    ensures var ms := Scanner.CachedScan(disk, Scanner.FullScan(before, hash), hash);
            var left := SyncedAt(target, FilesOf(disk), mt, ms, p);
            left.Some? && left.value.content == before[p].content != disk[p].content
  {
    assert p in mt;
  }
}
