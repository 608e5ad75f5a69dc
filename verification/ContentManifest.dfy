/** Manifests of a content directory and the changes that lead from one to another. */
module ContentManifests {
  import opened Prelude

  datatype Path = Path(text: string)

  datatype Content = Content(bytes: seq<bv8>)

  datatype Hash = Hash(text: string)

  datatype File = File(content: Content, permissions: nat)

  /** A file's record in a manifest; None is a key the record does not have. */
  datatype Entry = Entry(size: Option<nat>, modified: Option<int>, permissions: Option<nat>, sha256: Option<Hash>)

  /** A manifest without a "files" key is the empty map: both read the same everywhere. */
  type Manifest = map<Path, Entry>

  datatype ChangeType = ADDED | REMOVED | MODIFIED | ATTRIBUTES_CHANGED

  datatype Change = Change(kind: ChangeType, path: Path)

  /** Scans leave out the file the manifest itself is stored in. */
  const MANIFEST := Path("manifest.json")

  const PERMS_UNKNOWN: nat := 0xFFFF

  /** What happened to one path. */
  function KindAt(before: Manifest, after: Manifest, p: Path): Option<ChangeType> {
    if p in after then
      if p !in before then Some(ADDED)
      else if before[p].sha256 != after[p].sha256 then Some(MODIFIED)
      else if before[p].permissions != after[p].permissions then Some(ATTRIBUTES_CHANGED)
      else None
    else if p in before then Some(REMOVED)
    else None
  }

  /** The changes list every path that differs exactly once, with what happened to it, removals last. */
  ghost predicate IsDiff(changes: seq<Change>, before: Manifest, after: Manifest) {
    && (forall k :: 0 <= k < |changes| ==> KindAt(before, after, changes[k].path) == Some(changes[k].kind))
    && (forall j, k :: 0 <= j < k < |changes| ==> changes[j].path != changes[k].path)
    && (forall p :: KindAt(before, after, p).Some? ==> Lists(changes, p))
    && (forall j, k :: 0 <= j < k < |changes| && changes[j].kind == REMOVED ==> changes[k].kind == REMOVED)
  }

  ghost predicate Lists(changes: seq<Change>, p: Path) {
    exists k :: 0 <= k < |changes| && changes[k].path == p
  }

  /** The paths in `done` are compared. */
  ghost predicate DiffOf(changes: seq<Change>, done: set<Path>, before: Manifest, after: Manifest) {
    && (forall k :: 0 <= k < |changes| ==>
         KindAt(before, after, changes[k].path) == Some(changes[k].kind) && changes[k].path in done)
    && (forall j, k :: 0 <= j < k < |changes| ==> changes[j].path != changes[k].path)
    && (forall p :: p in done && KindAt(before, after, p).Some? ==> Lists(changes, p))
    && (forall j, k :: 0 <= j < k < |changes| && changes[j].kind == REMOVED ==> changes[k].kind == REMOVED)
  }

  lemma {:induction false} Listing(changes: seq<Change>, c: Change, done: set<Path>, before: Manifest, after: Manifest)
    requires DiffOf(changes, done, before, after) && c.path !in done
    requires KindAt(before, after, c.path) == Some(c.kind) && (c.kind == REMOVED || done <= after.Keys)
    ensures DiffOf(changes + [c], done + {c.path}, before, after)
  {
    var longer := changes + [c];
    forall p | p in done + {c.path} && KindAt(before, after, p).Some? ensures Lists(longer, p) {
      if p == c.path {
        assert longer[|changes|].path == p;
      } else {
        assert Lists(changes, p);
        var k :| 0 <= k < |changes| && changes[k].path == p;
        assert longer[k].path == p;
      }
    }
  }

  lemma {:induction false} Skipping(changes: seq<Change>, p: Path, done: set<Path>, before: Manifest, after: Manifest)
    requires DiffOf(changes, done, before, after) && KindAt(before, after, p).None?
    ensures DiffOf(changes, done + {p}, before, after)
  {
  }

  lemma {:induction false} AllCompared(changes: seq<Change>, done: set<Path>, before: Manifest, after: Manifest)
    requires DiffOf(changes, done, before, after) && before.Keys <= done && after.Keys <= done
    ensures IsDiff(changes, before, after)
  {
    forall p | KindAt(before, after, p).Some? ensures Lists(changes, p) {
      assert p in done;
    }
  }

  method CompareManifests(before: Manifest, after: Manifest) returns (changes: seq<Change>)
    ensures IsDiff(changes, before, after)
  {
    changes := AddedOrModified(before, after);
    changes := Removed(before, after, changes);
    AllCompared(changes, before.Keys + after.Keys, before, after);
  }

  /** The first loop; the paths come in some order that the result does not depend on. */
  method AddedOrModified(before: Manifest, after: Manifest) returns (changes: seq<Change>)
    ensures DiffOf(changes, after.Keys, before, after)
  {
    changes := [];
    ghost var done: set<Path> := {};
    var todo := after.Keys;
    assert DiffOf(changes, done, before, after);
    hide DiffOf;
    while todo != {}
      invariant todo <= after.Keys && after.Keys - todo <= done <= after.Keys && done !! todo
      invariant DiffOf(changes, done, before, after)
      decreases |todo|
    {
      var p :| p in todo;
      if p !in before {
        Listing(changes, Change(ADDED, p), done, before, after);
        changes := changes + [Change(ADDED, p)];
      } else if before[p].sha256 != after[p].sha256 {
        Listing(changes, Change(MODIFIED, p), done, before, after);
        changes := changes + [Change(MODIFIED, p)];
      } else if before[p].permissions != after[p].permissions {
        Listing(changes, Change(ATTRIBUTES_CHANGED, p), done, before, after);
        changes := changes + [Change(ATTRIBUTES_CHANGED, p)];
      } else {
        Skipping(changes, p, done, before, after);
      }
      todo, done := todo - {p}, done + {p};
    }
    assert done == after.Keys;
  }

  /** The second loop. */
  method Removed(before: Manifest, after: Manifest, found: seq<Change>) returns (changes: seq<Change>)
    requires DiffOf(found, after.Keys, before, after)
    ensures DiffOf(changes, before.Keys + after.Keys, before, after)
  {
    changes := found;
    ghost var done := after.Keys;
    var todo := before.Keys;
    hide DiffOf;
    while todo != {}
      invariant todo <= before.Keys && after.Keys <= done && before.Keys - todo <= done <= before.Keys + after.Keys
      invariant done !! todo - after.Keys
      invariant DiffOf(changes, done, before, after)
      decreases |todo|
    {
      var p :| p in todo;
      if p !in after {
        Listing(changes, Change(REMOVED, p), done, before, after);
        changes := changes + [Change(REMOVED, p)];
        done := done + {p};
      }
      todo := todo - {p};
    }
    assert done == before.Keys + after.Keys;
  }

  function GetPermissionsFromManifest(m: Manifest, p: Path): nat {
    if p in m && m[p].permissions.Some? then m[p].permissions.value else PERMS_UNKNOWN
  }

  /** There is nothing to do exactly when both manifests have the same paths, hashes and permissions. */
  lemma {:induction false} NoChangesIff(changes: seq<Change>, before: Manifest, after: Manifest)
    requires IsDiff(changes, before, after)
    ensures changes == [] <==>
            before.Keys == after.Keys
            && forall p :: p in before ==>
                 before[p].sha256 == after[p].sha256 && before[p].permissions == after[p].permissions
  {
    if changes == [] {
      forall p
        ensures p in before <==> p in after
        ensures p in before ==> before[p].sha256 == after[p].sha256 && before[p].permissions == after[p].permissions
      {
        assert !Lists(changes, p);
      }
    } else {
      assert KindAt(before, after, changes[0].path).Some?;
    }
  }

  /** The same change seen from the other side. */
  function Reversed(c: Change): Change {
    Change(if c.kind == ADDED then REMOVED else if c.kind == REMOVED then ADDED else c.kind, c.path)
  }

  /** Comparing the other way lists the same paths, with additions and removals exchanged. */
  lemma {:induction false} ReverseDiff(there: seq<Change>, back: seq<Change>, a: Manifest, b: Manifest, c: Change)
    requires IsDiff(there, a, b) && IsDiff(back, b, a)
    ensures c in there <==> Reversed(c) in back
  {
    InDiffIff(there, a, b, c);
    InDiffIff(back, b, a, Reversed(c));
  }

  lemma {:induction false} InDiffIff(changes: seq<Change>, before: Manifest, after: Manifest, c: Change)
    requires IsDiff(changes, before, after)
    ensures c in changes <==> KindAt(before, after, c.path) == Some(c.kind)
  {
    if KindAt(before, after, c.path) == Some(c.kind) {
      assert Lists(changes, c.path);
      var k :| 0 <= k < |changes| && changes[k].path == c.path;
      assert changes[k] == c;
    }
  }

  /** A file without recorded permissions gets the unknown ones. */
  lemma {:induction false} PermissionsFromManifest(m: Manifest, p: Path)
    ensures p in m && m[p].permissions.Some? ==> GetPermissionsFromManifest(m, p) == m[p].permissions.value
    ensures p !in m || m[p].permissions.None? ==> GetPermissionsFromManifest(m, p) == 0xFFFF
  {
  }

  /** What happened to one path, from presence, recorded hash and recorded permissions. */
  lemma {:induction false} KindTable(before: Manifest, after: Manifest, p: Path)
    ensures KindAt(before, after, p) == Some(ADDED) <==> p !in before && p in after
    ensures KindAt(before, after, p) == Some(REMOVED) <==> p in before && p !in after
    ensures KindAt(before, after, p) == Some(MODIFIED) <==>
            p in before && p in after && before[p].sha256 != after[p].sha256
    ensures KindAt(before, after, p) == Some(ATTRIBUTES_CHANGED) <==>
            p in before && p in after && before[p].sha256 == after[p].sha256
              && before[p].permissions != after[p].permissions
  {
  }
}
