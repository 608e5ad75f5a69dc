/** Scanning a content directory into its manifest, with hashes reused from the stored manifest between full scans. */
module ContentScanners {
  import opened Prelude
  import opened ContentManifests

  /** `modified` counts nanoseconds from the file clock's epoch, before or after it. */
  datatype DiskFile = DiskFile(content: Content, modified: int, permissions: nat)

  type Disk = map<Path, DiskFile>

  const NANOSECONDS: int := 1_000_000_000

  /** system_clock's smallest time point in milliseconds: where a new scanner puts its last full scan. */
  const NEVER: int := -9_223_372_036_854

  /** duration_cast to seconds, which rounds toward zero. */
  function Seconds(nanoseconds: int): int {
    if nanoseconds >= 0 then nanoseconds / NANOSECONDS else -(-nanoseconds / NANOSECONDS)
  }

  function FullEntry(f: DiskFile, hash: Content -> Hash): Entry {
    Entry(Some(|f.content.bytes|), Some(Seconds(f.modified)), Some(f.permissions), Some(hash(f.content)))
  }

  /** Size and modification second are those the stored manifest has. */
  predicate Unchanged(stored: Manifest, p: Path, f: DiskFile) {
    p in stored && stored[p].size == Some(|f.content.bytes|) && stored[p].modified == Some(Seconds(f.modified))
  }

  function CachedEntry(stored: Manifest, p: Path, f: DiskFile, hash: Content -> Hash): Entry {
    if Unchanged(stored, p, f) then FullEntry(f, hash).(sha256 := stored[p].sha256) else FullEntry(f, hash)
  }

  function FullScan(disk: Disk, hash: Content -> Hash): Manifest {
    map p | p in disk && p != MANIFEST :: FullEntry(disk[p], hash)
  }

  function CachedScan(disk: Disk, stored: Manifest, hash: Content -> Hash): Manifest {
    map p | p in disk && p != MANIFEST :: CachedEntry(stored, p, disk[p], hash)
  }

  /** One more file of the directory. */
  lemma {:induction false} FullScanOne(disk: Disk, todo: set<Path>, p: Path, hash: Content -> Hash)
    requires p in todo && todo <= disk.Keys
    ensures FullScan(disk - (todo - {p}), hash) ==
            if p == MANIFEST then FullScan(disk - todo, hash)
            else FullScan(disk - todo, hash)[p := FullEntry(disk[p], hash)]
  {
  }

  /** The files of the directory and the manifest stored among them (empty when missing or unreadable). */
  class ContentDirectory {
    var files: Disk
    var stored: Manifest

    constructor (files: Disk, stored: Manifest)
      ensures this.files == files && this.stored == stored
    {
      this.files, this.stored := files, stored;
    }
  }

  class ContentScanner {
    const directory: ContentDirectory
    const fullRescanInterval: int
    const hash: Content -> Hash
    var lastFullRescan: int

    constructor (directory: ContentDirectory, fullRescanInterval: int, hash: Content -> Hash)
      ensures this.directory == directory && this.fullRescanInterval == fullRescanInterval && this.hash == hash
      ensures lastFullRescan == NEVER
    {
      this.directory, this.fullRescanInterval, this.hash := directory, fullRescanInterval, hash;
      lastFullRescan := NEVER;
    }

    /** `now` and `end` are the clock when the scan starts and when it has read all files. */
    method ScanContent(now: int, end: int) returns (m: Manifest)
      modifies this
      ensures m == if now - old(lastFullRescan) >= fullRescanInterval then FullScan(directory.files, hash)
                   else CachedScan(directory.files, directory.stored, hash)
      ensures lastFullRescan == if now - old(lastFullRescan) >= fullRescanInterval then end else old(lastFullRescan)
    {
      if now - lastFullRescan >= fullRescanInterval {
        m := FullContentScan(end);
      } else {
        m := ScanContentWithCache();
      }
    }

    method FullContentScan(end: int) returns (m: Manifest)
      modifies this
      ensures m == FullScan(directory.files, hash) && lastFullRescan == end
    {
      m := map[];
      var todo := directory.files.Keys;
      assert directory.files - todo == map[];
      hide FullEntry;
      while todo != {}
        invariant todo <= directory.files.Keys
        invariant m == FullScan(directory.files - todo, hash)
        decreases |todo|
      {
        var p :| p in todo;
        FullScanOne(directory.files, todo, p, hash);
        if p != MANIFEST {
          m := m[p := FullEntry(directory.files[p], hash)];
        }
        todo := todo - {p};
      }
      assert directory.files - todo == directory.files;
      lastFullRescan := end;
    }

    method ScanContentWithCache() returns (m: Manifest)
      ensures m == CachedScan(directory.files, directory.stored, hash)
    {
      m := map[];
      var todo := directory.files.Keys;
      while todo != {}
        invariant todo <= directory.files.Keys && m == CachedScan(directory.files - todo, directory.stored, hash)
        decreases |todo|
      {
        var p :| p in todo;
        if p != MANIFEST {
          var file := directory.files[p];
          var entry := FullEntry(file, hash);
          if Unchanged(directory.stored, p, file) {
            entry := entry.(sha256 := directory.stored[p].sha256);
          }
          m := m[p := entry];
        }
        todo := todo - {p};
      }
      assert directory.files - todo == directory.files;
    }
  }

  class ContentManifest {
    const scanner: ContentScanner

    constructor (directory: ContentDirectory, fullRescanInterval: int, hash: Content -> Hash)
      ensures fresh(scanner) && scanner.directory == directory && scanner.fullRescanInterval == fullRescanInterval
      ensures scanner.hash == hash && scanner.lastFullRescan == NEVER
    {
      scanner := new ContentScanner(directory, fullRescanInterval, hash);
    }

    method UpdateManifest(now: int, end: int)
      modifies scanner, scanner.directory
      ensures var s := Update(scanner.fullRescanInterval, scanner.hash,
                              State(old(scanner.directory.stored), old(scanner.lastFullRescan)),
                              Scan(old(scanner.directory.files), now, end));
              && scanner.directory.stored == s.stored && scanner.lastFullRescan == s.last
              && scanner.directory.files == old(scanner.directory.files)
    {
      var m := scanner.ScanContent(now, end);
      scanner.directory.stored := m;
    }
  }

  // ----- Runs of one scanner: the files may change in any way between its scans -----

  /** A scan from `now` to `end` and the files it finds. */
  datatype Scan = Scan(disk: Disk, now: int, end: int)

  datatype State = State(stored: Manifest, last: int)

  predicate IsFull(interval: int, last: int, scan: Scan) {
    scan.now - last >= interval
  }

  function Update(interval: int, hash: Content -> Hash, s: State, scan: Scan): State {
    if IsFull(interval, s.last, scan) then State(FullScan(scan.disk, hash), scan.end)
    else State(CachedScan(scan.disk, s.stored, hash), s.last)
  }

  /** The manifest found by a new scanner is whatever an earlier one left. */
  function After(interval: int, hash: Content -> Hash, found: Manifest, scans: seq<Scan>): State {
    if scans == [] then State(found, NEVER)
    else Update(interval, hash, After(interval, hash, found, scans[..|scans| - 1]), scans[|scans| - 1])
  }

  /** Scan `n` of the run reads every file. */
  predicate FullAt(interval: int, hash: Content -> Hash, found: Manifest, scans: seq<Scan>, n: nat)
    requires n < |scans|
  {
    IsFull(interval, After(interval, hash, found, scans[..n]).last, scans[n])
  }

  predicate SameStamp(f: DiskFile, g: DiskFile) {
    |f.content.bytes| == |g.content.bytes| && Seconds(f.modified) == Seconds(g.modified)
  }

  lemma {:induction false} CachedRightIff(disk: Disk, stored: Manifest, hash: Content -> Hash)
    ensures CachedScan(disk, stored, hash) == FullScan(disk, hash) <==>
            forall p :: p in disk && p != MANIFEST && Unchanged(stored, p, disk[p]) ==>
                stored[p].sha256 == Some(hash(disk[p].content))
  {
    var c, f := CachedScan(disk, stored, hash), FullScan(disk, hash);
    if c == f {
      forall p | p in disk && p != MANIFEST && Unchanged(stored, p, disk[p])
        ensures stored[p].sha256 == Some(hash(disk[p].content))
      {
        assert c[p] == f[p];
      }
    } else if forall p :: p in disk && p != MANIFEST && Unchanged(stored, p, disk[p]) ==>
        stored[p].sha256 == Some(hash(disk[p].content)) {
      assert c.Keys == f.Keys;
      forall p | p in c ensures c[p] == f[p] {
      }
    }
  }

  /** The file changed in a way that neither its size nor its second shows. */
  predicate Disguised(before: Disk, disk: Disk, hash: Content -> Hash, p: Path) {
    p in before && p in disk && p != MANIFEST && SameStamp(before[p], disk[p])
    && hash(before[p].content) != hash(disk[p].content)
  }

  lemma {:induction false} CachedAfterRightIff(before: Disk, disk: Disk, hash: Content -> Hash)
    ensures CachedScan(disk, FullScan(before, hash), hash) == FullScan(disk, hash) <==>
            forall p :: !Disguised(before, disk, hash, p)
  {
    var stored := FullScan(before, hash);
    CachedRightIff(disk, stored, hash);
    forall p | p in disk && p != MANIFEST
      ensures Disguised(before, disk, hash, p) <==>
              Unchanged(stored, p, disk[p]) && stored[p].sha256 != Some(hash(disk[p].content))
    {
    }
    if p :| Disguised(before, disk, hash, p) {
      assert p in disk && p != MANIFEST && Unchanged(stored, p, disk[p]);
    }
  }

  /** Scan `n` reuses hashes and finds a file that changed so since the scan before it. */
  ghost predicate MissedEdit(interval: int, hash: Content -> Hash, found: Manifest, scans: seq<Scan>, n: nat, p: Path) {
    0 < n < |scans| && !FullAt(interval, hash, found, scans, n) && Disguised(scans[n - 1].disk, scans[n].disk, hash, p)
  }

  ghost predicate RightAt(interval: int, hash: Content -> Hash, found: Manifest, scans: seq<Scan>, n: nat)
    requires n < |scans|
  {
    After(interval, hash, found, scans[..n + 1]).stored == FullScan(scans[n].disk, hash)
  }

  lemma {:induction false} AfterOne(interval: int, hash: Content -> Hash, found: Manifest, scans: seq<Scan>, n: nat)
    requires n < |scans|
    ensures After(interval, hash, found, scans[..n + 1]) ==
            Update(interval, hash, After(interval, hash, found, scans[..n]), scans[n])
  {
    assert scans[..n + 1][..n] == scans[..n];
  }

  /** A full scan is right whatever was stored. The first one is full for any interval below some 290 years. */
  lemma {:induction false} FullScanIsRight(interval: int, hash: Content -> Hash, found: Manifest, scans: seq<Scan>,
                                           n: nat)
    requires n < |scans| && FullAt(interval, hash, found, scans, n)
    ensures RightAt(interval, hash, found, scans, n)
  {
    AfterOne(interval, hash, found, scans, n);
  }

  lemma {:induction false} FirstScanFullIff(interval: int, hash: Content -> Hash, found: Manifest, scans: seq<Scan>)
    requires scans != []
    ensures FullAt(interval, hash, found, scans, 0) <==> interval <= scans[0].now + 9_223_372_036_854
  {
    assert scans[..0] == [];
  }

  lemma {:induction false} NextRightIff(interval: int, hash: Content -> Hash, found: Manifest, scans: seq<Scan>, n: nat)
    requires 0 < n < |scans| && RightAt(interval, hash, found, scans, n - 1)
    ensures RightAt(interval, hash, found, scans, n) <==> forall p :: !MissedEdit(interval, hash, found, scans, n, p)
  {
    AfterOne(interval, hash, found, scans, n);
    if FullAt(interval, hash, found, scans, n) {
      FullScanIsRight(interval, hash, found, scans, n);
    } else {
      var before, disk := scans[n - 1].disk, scans[n].disk;
      assert scans[..n - 1 + 1] == scans[..n];
      assert After(interval, hash, found, scans[..n + 1]).stored == CachedScan(disk, FullScan(before, hash), hash);
      CachedAfterRightIff(before, disk, hash);
      hide Disguised, CachedScan, FullScan, FullAt, After;
      forall p ensures MissedEdit(interval, hash, found, scans, n, p) <==> Disguised(before, disk, hash, p) {
      }
      if p :| Disguised(before, disk, hash, p) {
        assert MissedEdit(interval, hash, found, scans, n, p);
      }
    }
  }

  lemma {:induction false} AllRight(interval: int, hash: Content -> Hash, found: Manifest, scans: seq<Scan>, n: nat)
    requires n < |scans| && interval <= scans[0].now + 9_223_372_036_854
    requires forall n: nat, p :: !MissedEdit(interval, hash, found, scans, n, p)
    ensures RightAt(interval, hash, found, scans, n)
  {
    if n == 0 {
      FirstScanFullIff(interval, hash, found, scans);
      FullScanIsRight(interval, hash, found, scans, 0);
    } else {
      AllRight(interval, hash, found, scans, n - 1);
      NextRightIff(interval, hash, found, scans, n);
    }
  }

  /**
   * Every manifest of a run is that of a full scan exactly when no edit between two scans, the second a cached one,
   * keeps a file's size and second.
   */
  lemma {:induction false} AllRightIff(interval: int, hash: Content -> Hash, found: Manifest, scans: seq<Scan>)
    requires scans != [] && interval <= scans[0].now + 9_223_372_036_854
    ensures (forall n: nat :: n < |scans| ==> RightAt(interval, hash, found, scans, n)) <==>
            forall n: nat, p :: !MissedEdit(interval, hash, found, scans, n, p)
  {
    if forall n: nat, p :: !MissedEdit(interval, hash, found, scans, n, p) {
      forall n: nat | n < |scans| ensures RightAt(interval, hash, found, scans, n) {
        AllRight(interval, hash, found, scans, n);
      }
    }
    if forall n: nat :: n < |scans| ==> RightAt(interval, hash, found, scans, n) {
      forall n: nat, p ensures !MissedEdit(interval, hash, found, scans, n, p) {
        if 0 < n < |scans| {
          assert RightAt(interval, hash, found, scans, n - 1);
          NextRightIff(interval, hash, found, scans, n);
        }
      }
    }
  }

  // ----- How long a wrong hash can last -----

  /** The hash stored for `p` was that of the version scan `j` saw, which has the stamp of the last version. */
  ghost predicate ReadAt(hash: Content -> Hash, scans: seq<Scan>, j: nat, p: Path, e: Entry) {
    && j < |scans| && p in scans[j].disk && p in scans[|scans| - 1].disk
    && SameStamp(scans[j].disk[p], scans[|scans| - 1].disk[p])
    && e == FullEntry(scans[|scans| - 1].disk[p], hash).(sha256 := Some(hash(scans[j].disk[p].content)))
  }

  /** Scan `full` was the last full one, and every stored hash was read from a file then or later. */
  ghost predicate Provenance(interval: int, hash: Content -> Hash, found: Manifest, scans: seq<Scan>, full: nat) {
    var s := After(interval, hash, found, scans);
    && full < |scans| && FullAt(interval, hash, found, scans, full) && s.last == scans[full].end
    && (forall n :: full < n < |scans| ==> scans[n].now - scans[full].end < interval)
    && (forall p :: p in s.stored <==> p in scans[|scans| - 1].disk && p != MANIFEST)
    && forall p :: p in s.stored ==> exists j :: full <= j && ReadAt(hash, scans, j, p, s.stored[p])
  }

  lemma {:induction false} ProvenanceAfterFull(interval: int, hash: Content -> Hash, found: Manifest, scans: seq<Scan>)
    requires scans != [] && FullAt(interval, hash, found, scans, |scans| - 1)
    ensures Provenance(interval, hash, found, scans, |scans| - 1)
  {
    var s, n := After(interval, hash, found, scans), |scans| - 1;
    forall p | p in s.stored ensures exists j :: n <= j && ReadAt(hash, scans, j, p, s.stored[p]) {
      assert ReadAt(hash, scans, n, p, s.stored[p]);
    }
  }

  lemma {:induction false} ProvenanceAfterCached(interval: int, hash: Content -> Hash, found: Manifest,
                                                 scans: seq<Scan>, full: nat)
    requires |scans| > 1 && !FullAt(interval, hash, found, scans, |scans| - 1)
    requires Provenance(interval, hash, found, scans[..|scans| - 1], full)
    ensures Provenance(interval, hash, found, scans, full)
  {
    var n := |scans| - 1;
    var front := scans[..n];
    var s, before := After(interval, hash, found, scans), After(interval, hash, found, front);
    assert front[..full] == scans[..full];
    forall p | p in s.stored ensures exists j :: full <= j && ReadAt(hash, scans, j, p, s.stored[p]) {
      if Unchanged(before.stored, p, scans[n].disk[p]) {
        var j: nat :| full <= j && ReadAt(hash, front, j, p, before.stored[p]);
        assert ReadAt(hash, scans, j, p, s.stored[p]);
      } else {
        assert ReadAt(hash, scans, n, p, s.stored[p]);
      }
    }
  }

  /**
   * Without any assumption on edits: a stored hash is that of a version some scan saw since the last full one, less
   * than one interval ago. So a wrong hash lasts at most until the first scan at or after the rescan interval.
   */
  lemma {:induction false} HashesAreRecent(interval: int, hash: Content -> Hash, found: Manifest, scans: seq<Scan>)
    returns (full: nat)
    requires scans != [] && interval <= scans[0].now + 9_223_372_036_854
    ensures Provenance(interval, hash, found, scans, full)
    decreases |scans|
  {
    var n := |scans| - 1;
    if FullAt(interval, hash, found, scans, n) {
      ProvenanceAfterFull(interval, hash, found, scans);
      full := n;
    } else {
      FirstScanFullIff(interval, hash, found, scans);
      full := HashesAreRecent(interval, hash, found, scans[..n]);
      ProvenanceAfterCached(interval, hash, found, scans, full);
    }
  }

  /** An edit that keeps the size, in the second of the version scanned before it, is not seen by a cached scan. */
  lemma {:induction false} SameSecondEditMissed(interval: int, hash: Content -> Hash, found: Manifest, p: Path,
                                                f: DiskFile, g: DiskFile, start: int, end: int, again: int)
    requires p != MANIFEST && SameStamp(f, g) && hash(f.content) != hash(g.content)
    requires interval <= start + 9_223_372_036_854 && again < end + interval
    ensures var scans := [Scan(map[p := f], start, end), Scan(map[p := g], again, again)];
            var s := After(interval, hash, found, scans);
            p in s.stored && s.stored[p].sha256 == Some(hash(f.content)) && !RightAt(interval, hash, found, scans, 1)
  {
    var scans := [Scan(map[p := f], start, end), Scan(map[p := g], again, again)];
    FirstScanFullIff(interval, hash, found, scans);
    FullScanIsRight(interval, hash, found, scans, 0);
    AfterOne(interval, hash, found, scans, 0);
    AfterOne(interval, hash, found, scans, 1);
    assert scans[..2] == scans;
  }

  // ----- In times and sizes -----

  /** The whole seconds of a time, rounded toward the epoch. */
  lemma {:induction false} SecondsTruncate(ns: int)
    requires ns >= 0
    ensures Seconds(ns) * 1_000_000_000 <= ns < (Seconds(ns) + 1) * 1_000_000_000
    ensures Seconds(-ns) == -Seconds(ns)
  {
  }

  /** Two times on one side of the epoch. */
  predicate OneSide(s: int, t: int) {
    (s >= 0 && t >= 0) || (s <= 0 && t <= 0)
  }

  predicate SecondApart(s: int, t: int) {
    s - t >= 1_000_000_000 || t - s >= 1_000_000_000
  }

  lemma {:induction false} ApartDiffer(s: int, t: int)
    requires OneSide(s, t) && SecondApart(s, t)
    ensures Seconds(s) != Seconds(t)
  {
    SecondsTruncate(if s >= 0 then s else -s);
    SecondsTruncate(if t >= 0 then t else -t);
  }

  /** Times within one second of the epoch share the second 0, whichever side they are on. */
  lemma {:induction false} AroundTheEpoch(s: int, t: int)
    requires -1_000_000_000 < s < 1_000_000_000 && -1_000_000_000 < t < 1_000_000_000
    ensures Seconds(s) == Seconds(t) == 0
  {
  }

  /** A new version is told apart from the one scanned before by its size, or by a second between their times. */
  lemma {:induction false} PlainEditSeen(before: Disk, disk: Disk, hash: Content -> Hash, p: Path)
    requires p in before && p in disk && p.text != "manifest.json"
    requires || |before[p].content.bytes| != |disk[p].content.bytes|
             || (OneSide(before[p].modified, disk[p].modified) && SecondApart(before[p].modified, disk[p].modified))
    ensures !Disguised(before, disk, hash, p)
    ensures var scanned := CachedScan(disk, FullScan(before, hash), hash);
            p in scanned && scanned[p].sha256 == Some(hash(disk[p].content))
  {
    if |before[p].content.bytes| == |disk[p].content.bytes| {
      ApartDiffer(before[p].modified, disk[p].modified);
    }
  }

  /** The file is the same in both scans, or an edit made it differ in size or by a second. */
  predicate PlainChange(f: DiskFile, g: DiskFile) {
    || f.content == g.content
    || |f.content.bytes| != |g.content.bytes|
    || (OneSide(f.modified, g.modified) && SecondApart(f.modified, g.modified))
  }

  lemma {:induction false} PlainChangeSeen(before: Disk, disk: Disk, hash: Content -> Hash, p: Path)
    requires p in before && p in disk ==> PlainChange(before[p], disk[p])
    ensures !Disguised(before, disk, hash, p)
  {
    if p in before && p in disk && p != MANIFEST && before[p].content != disk[p].content {
      assert p.text != "manifest.json";
      PlainEditSeen(before, disk, hash, p);
    }
  }

  /** A run in which every change between two scans is plain: every manifest is that of a full scan. */
  lemma {:induction false} PlainEditsAllRight(interval: int, hash: Content -> Hash, found: Manifest, scans: seq<Scan>)
    requires scans != [] && interval <= scans[0].now + 9_223_372_036_854
    requires forall n: nat, p :: 0 < n < |scans| && p in scans[n - 1].disk && p in scans[n].disk ==>
                                   PlainChange(scans[n - 1].disk[p], scans[n].disk[p])
    ensures forall n: nat :: n < |scans| ==> RightAt(interval, hash, found, scans, n)
  {
    forall n: nat, p ensures !MissedEdit(interval, hash, found, scans, n, p) {
      if 0 < n < |scans| {
        PlainChangeSeen(scans[n - 1].disk, scans[n].disk, hash, p);
      }
    }
    AllRightIff(interval, hash, found, scans);
  }

  /**
   * What a full scan records: every file but the stored manifest, with its size, whole seconds, permissions and hash.
   */
  lemma {:induction false} FullScanRecords(disk: Disk, hash: Content -> Hash, p: Path)
    ensures p in FullScan(disk, hash) <==> p in disk && p.text != "manifest.json"
    ensures p in FullScan(disk, hash) && disk[p].modified >= 0 ==>
              var e := FullScan(disk, hash)[p];
              && e.size == Some(|disk[p].content.bytes|) && e.permissions == Some(disk[p].permissions)
              && e.sha256 == Some(hash(disk[p].content)) && e.modified.Some?
              && e.modified.value * 1_000_000_000 <= disk[p].modified < (e.modified.value + 1) * 1_000_000_000
  {
    assert p == MANIFEST <==> p.text == "manifest.json";
    if p in disk && disk[p].modified >= 0 {
      SecondsTruncate(disk[p].modified);
    }
  }

  /** A cached scan does too, but for the hashes it reuses. */
  lemma {:induction false} CachedScanRecords(disk: Disk, stored: Manifest, hash: Content -> Hash, p: Path)
    ensures p in CachedScan(disk, stored, hash) <==> p in disk && p.text != "manifest.json"
    ensures p in CachedScan(disk, stored, hash) ==>
              var e, f := CachedScan(disk, stored, hash)[p], FullScan(disk, hash)[p];
              && e.size == f.size && e.modified == f.modified && e.permissions == f.permissions
              && (e.sha256 == f.sha256 || (p in stored && e.sha256 == stored[p].sha256
                    && stored[p].size == f.size && stored[p].modified == f.modified))
  {
    assert p == MANIFEST <==> p.text == "manifest.json";
  }
}
