/** Single steps of the manager on the disk, and pending claims across steps. */
module CacheSteps {
  import opened Wrappers
  import opened Keyed
  import opened CacheRecords
  import opened CacheEviction
  import opened CacheCatalog
  import opened CacheDeletion
  import opened CacheStores
  import opened CacheTransactions
  import opened CacheOutside

  // ----- Disk steps -----

  function WithEntry(d: Disk, id: string, dir: Directory): Disk {
    d.(entries := if dir.Absent? then d.entries - {id} else d.entries[id := dir])
  }

  function EntryFile(id: string, blobId: string, size: int): File {
    File(0, true, EntryManifest(id, blobId, size))
  }

  lemma DiskOutsideKeeps(d: Disk, e: Disk, c: Snapshot, sizes: Sizes)
    requires Consistent(World(d, c), sizes) && e.blobs == d.blobs && e.entries == d.entries
    ensures Consistent(World(e, c), sizes)
  {
    hide TidyCatalog, Doomed;
    assert forall x | x in c.entries :: EntryBacked(d, c, x);
  }

  lemma AddBlobKeeps(d: Disk, c: Snapshot, id: string, sizes: Sizes)
    requires Consistent(World(d, c), sizes)
    ensures Consistent(World(d.(blobs := d.blobs[id := (id, sizes(id))]), c), sizes)
  {
    hide TidyCatalog, Doomed;
    assert forall x | x in c.entries :: EntryBacked(d, c, x);
  }

  /** A blob file may go once it is not published and no manifest of a cataloged
      entry names it. */
  lemma DropBlobKeeps(d: Disk, c: Snapshot, id: string, sizes: Sizes)
    requires Consistent(World(d, c), sizes) && !PublishedBlob(c, id)
    requires forall e | e in c.entries && e.blobId == id :: !HasManifest(d, e.id)
    ensures Consistent(World(d.(blobs := d.blobs - {id}), c), sizes)
  {
    hide TidyCatalog, Doomed;
    assert forall x | x in c.entries :: EntryBacked(d, c, x);
  }

  /** Making or removing an empty entry directory changes no manifest. */
  lemma EmptyDirectoryKeeps(d: Disk, c: Snapshot, id: string, dir: Directory, sizes: Sizes)
    requires Consistent(World(d, c), sizes) && !HasManifest(d, id)
    requires dir.Absent? || (dir.private && dir.children == map[])
    ensures Consistent(World(WithEntry(d, id, dir), c), sizes)
    ensures !HasManifest(WithEntry(d, id, dir), id)
  {
    hide TidyCatalog, Doomed;
    assert forall x | x in c.entries :: EntryBacked(d, c, x);
  }

  lemma DropManifestKeeps(d: Disk, c: Snapshot, id: string, sizes: Sizes)
    requires Consistent(World(d, c), sizes) && HasManifest(d, id)
    requires forall e | e in c.entries && e.id == id :: Doomed(c, e)
    ensures Consistent(World(WithEntry(d, id, Present(true, map[])), c), sizes)
  {
    hide TidyCatalog, Doomed;
    assert forall x | x in c.entries :: EntryBacked(d, c, x);
  }

  lemma AddManifestKeeps(d: Disk, c: Snapshot, id: string, blobId: string, sizes: Sizes)
    requires Consistent(World(d, c), sizes) && blobId in d.blobs && !HasManifest(d, id)
    requires forall e | e in c.entries && e.id == id :: e.blobId == blobId
    ensures Consistent(World(WithEntry(d, id, Present(true, map[MANIFEST := EntryFile(id, blobId, sizes(blobId))])),
      c), sizes)
  {
    hide TidyCatalog, Doomed;
    assert forall x | x in c.entries :: EntryBacked(d, c, x);
  }

  // ----- Pending claims across steps -----

  lemma RelyPending(c: Snapshot, r: Snapshot, k: Claim)
    requires Rely(c, r) && Pending(c, k)
    ensures Pending(r, k)
  {
    MildTables(c, r);
    hide Mild, Claimed;
    match k
    case MaterializationClaim(id, contentId, size) =>
    case EntryClaim(id, blobId, size, shared) =>
      var e :| e in c.entries && e.id == id && e.blobId == blobId;
      var f := MildEntry(c, r, e);
    case BlobClaim(blobId, size) =>
      forall f | f in r.entries ensures f.blobId != blobId { var e := MildEntryBack(c, r, f); }
  }

  lemma RelyPinned(c: Snapshot, r: Snapshot, k: Claim)
    requires Rely(c, r)
    ensures ClaimedPinned(r, k) == ClaimedPinned(c, k)
  {
    hide Mild;
    if k.EntryClaim? {
      forall e | e in c.entries
        ensures exists f | f in r.entries :: f.id == e.id && f.pinned == e.pinned
      {
        var f := MildEntry(c, r, e);
      }
      forall f | f in r.entries
        ensures exists e | e in c.entries :: f.id == e.id && f.pinned == e.pinned
      {
        var e := MildEntryBack(c, r, f);
      }
    }
  }

  lemma PendingDooms(c: Snapshot, k: Claim, sizes: Sizes)
    requires TidyCatalog(c, sizes) && Pending(c, k) && k.EntryClaim?
    ensures forall e | e in c.entries && e.id == k.entryId :: e.blobId == k.blobId && Doomed(c, e)
  {
    var x :| x in c.entries && x.id == k.entryId && x.blobId == k.blobId;
    forall e | e in c.entries && e.id == k.entryId ensures e == x { EntryUnique(c, e, x); }
  }

  // ----- Finalizing one claim leaves the others in force -----

  lemma SharedIsPublished(c: Snapshot, k: Claim, sizes: Sizes)
    requires TidyCatalog(c, sizes) && Pending(c, k) && k.EntryClaim? && k.shared
    ensures PublishedBlob(c, k.blobId)
  {
    var x :| x in c.references && x.owner == EvictionClaim(k.entryId) && x.target == BlobTarget(k.blobId);
    assert ClaimStands(c, x);
  }

  /** What finalizing a claim takes away. */
  ghost predicate Takes(c: Snapshot, r: Snapshot, k: Claim) {
    && (forall m | m in c.materializations ::
      m in r.materializations || (k.MaterializationClaim? && m.id == k.materializationId))
    && (forall e | e in r.entries :: e in c.entries)
    && (forall e | e in c.entries :: e in r.entries || (k.EntryClaim? && e.id == k.entryId))
    && (forall b | b in c.blobs :: b in r.blobs || (SubjectOf(k) == BlobSubject(b.id)))
    && (forall id, b :: Claimed(c, id, b) ==> Claimed(r, id, b) || (k.EntryClaim? && k.shared && id == k.entryId))
  }

  lemma FinalizeTakes(c: Snapshot, k: Claim)
    requires FinalizeEviction(c, k).Some?
    ensures Takes(c, FinalizeEviction(c, k).value, k)
  {
    match k
    case MaterializationClaim(id, _, _) => WithoutMembers(c.materializations, MaterializationKey, id);
    case BlobClaim(id, _) => WithoutMembers(c.blobs, BlobKey, id);
    case EntryClaim(id, blobId, _, shared) =>
      WithoutMembers(c.entries, EntryKey, id);
      WithoutMembers(c.blobs, BlobKey, blobId);
      ClaimDropped(c.references, id, blobId);
  }

  lemma EntryOfOther(c: Snapshot, k: Claim, l: Claim, e: Entry, sizes: Sizes)
    requires TidyCatalog(c, sizes) && Pending(c, k) && Pending(c, l) && SubjectOf(k) != SubjectOf(l) && k.EntryClaim?
    requires l.EntryClaim?
    requires e in c.entries && e.id == l.entryId && e.blobId == l.blobId
    ensures k.entryId != l.entryId
  {
    if k.entryId == l.entryId {
      PendingDooms(c, k, sizes);
      assert e.blobId == k.blobId;
      if k.shared { SharedIsPublished(c, k, sizes); }
      if l.shared { SharedIsPublished(c, l, sizes); }
      PublishedNotDeleting(c, e.blobId);
    }
  }

  lemma FinalizeIndependent(c: Snapshot, k: Claim, l: Claim, sizes: Sizes)
    requires TidyCatalog(c, sizes) && Pending(c, k) && Pending(c, l) && SubjectOf(k) != SubjectOf(l)
    requires FinalizeEviction(c, k).Some?
    ensures Pending(FinalizeEviction(c, k).value, l)
    ensures ClaimedPinned(FinalizeEviction(c, k).value, l) == ClaimedPinned(c, l)
  {
    var r := FinalizeEviction(c, k).value;
    FinalizeTakes(c, k);
    hide FinalizeEviction, TidyCatalog;
    if l.EntryClaim? {
      hide Takes, ClaimedPinned, Pending;
      EntryClaimStays(c, r, k, l, sizes);
    }
  }

  lemma EntryClaimStays(c: Snapshot, r: Snapshot, k: Claim, l: Claim, sizes: Sizes)
    requires TidyCatalog(c, sizes) && Pending(c, k) && Pending(c, l) && SubjectOf(k) != SubjectOf(l) && Takes(c, r, k)
    requires l.EntryClaim?
    ensures Pending(r, l) && ClaimedPinned(r, l) == ClaimedPinned(c, l)
  {
    hide TidyCatalog, Claimed;
    var e :| e in c.entries && e.id == l.entryId && e.blobId == l.blobId;
    if k.EntryClaim? { EntryOfOther(c, k, l, e, sizes); }
    assert e in r.entries;
    if l.shared {
      SharedIsPublished(c, l, sizes);
      PublishedNotDeletingTidy(c, l.blobId, sizes);
      if SubjectOf(k).BlobSubject? { DeletingSubject(c, k); }
      hide DeletingBlob, PublishedBlob;
      var b :| b in c.blobs && b.id == l.blobId && b.size == l.blobSize;
      assert b in r.blobs;
    }
  }

  lemma DeletingSubject(c: Snapshot, k: Claim)
    requires Pending(c, k) && SubjectOf(k).BlobSubject?
    ensures DeletingBlob(c, SubjectOf(k).id)
  {
  }

  lemma PublishedNotDeletingTidy(c: Snapshot, id: string, sizes: Sizes)
    requires TidyCatalog(c, sizes) && PublishedBlob(c, id)
    ensures !DeletingBlob(c, id)
  {
    PublishedNotDeleting(c, id);
  }
}
