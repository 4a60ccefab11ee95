/** The two stores side by side: what must hold of disk and catalog together at
    every instant, and that each catalog transaction and each file operation of
    the manager keeps it. */
module CacheStores {
  import opened Wrappers
  import opened Keyed
  import opened CacheRecords
  import opened CacheEviction
  import opened CacheCatalog
  import opened CacheDeletion

  datatype Disk = Disk(blobs: Blobs, entries: map<string, Directory>, materializations: map<string, Directory>)

  datatype World = World(disk: Disk, catalog: Snapshot)

  /** The size of the one content that has a given digest. */
  type Sizes = string -> Int64

  function DirectoryAt(dirs: map<string, Directory>, id: string): Directory {
    if id in dirs then dirs[id] else Absent
  }

  predicate HasManifest(d: Disk, entryId: string) {
    entryId in d.entries && d.entries[entryId].Present? && MANIFEST in d.entries[entryId].children
  }

  /** Files the cache wrote itself, and nobody else: whole blobs under their own
      digest, and private entry directories holding at most a manifest. */
  ghost predicate TidyDisk(d: Disk, sizes: Sizes) {
    && (forall id | id in d.blobs :: d.blobs[id] == (id, sizes(id)))
    && (forall id | id in d.entries :: TidyEntry(d.entries[id], id, sizes))
  }

  ghost predicate TidyEntry(d: Directory, id: string, sizes: Sizes) {
    && d.Present? && d.private && d.children.Keys <= {MANIFEST}
    && (MANIFEST in d.children ==> ManifestOf(d.children[MANIFEST], id, sizes))
  }

  ghost predicate ManifestOf(f: File, id: string, sizes: Sizes) {
    f.private && f.data.EntryManifest? && f.data.entryId == id && f.data.blobSize == sizes(f.data.blobId)
  }

  ghost predicate Names(f: File, blobId: string) {
    f.data.EntryManifest? && f.data.blobId == blobId
  }

  /** The entry is on its way out: its blob is being deleted, or it is claimed. */
  predicate Doomed(c: Snapshot, e: Entry) {
    DeletingBlob(c, e.blobId) || Claimed(c, e.id, e.blobId)
  }

  /** Nothing holds a blob that is being deleted, bar its one unpinned entry. */
  ghost predicate Unheld(c: Snapshot, blobId: string) {
    && !Referenced(c, BlobTarget(blobId))
    && !Leased(c, BlobTarget(blobId))
    && !IsBaseline(c, blobId)
    && (forall e | e in c.entries && e.blobId == blobId :: !e.pinned && !Materialized(c, e.id))
    && (forall e, f | e in c.entries && f in c.entries && e.blobId == blobId && f.blobId == blobId :: e.id == f.id)
  }

  /** A shared claim stands on an unmaterialized entry of a published blob. */
  ghost predicate ClaimStands(c: Snapshot, r: Reference)
    requires r.owner.EvictionClaim?
  {
    exists e | e in c.entries ::
      e.id == r.owner.entryId && r.target == BlobTarget(e.blobId) && !Materialized(c, e.id)
        && PublishedBlob(c, e.blobId)
  }

  ghost predicate SourceMatches(c: Snapshot, m: Materialization) {
    exists e | e in c.entries :: e.id == m.entryId && e.blobId == m.baselineBlobId
  }

  predicate Unused(c: Snapshot, materializationId: string) {
    !Referenced(c, MaterializationTarget(materializationId)) && !Leased(c, MaterializationTarget(materializationId))
  }

  ghost predicate TidyCatalog(c: Snapshot, sizes: Sizes) {
    && WellLinked(c)
    && (forall b | b in c.blobs :: b.size == sizes(b.id))
    && (forall b | b in c.blobs && b.state == BlobDeleting :: Unheld(c, b.id))
    && (forall r | r in c.references && r.owner.EvictionClaim? :: ClaimStands(c, r))
    && (forall m | m in c.materializations :: SourceMatches(c, m))
    && (forall m | m in c.materializations && m.state == Deleting :: Unused(c, m.id))
  }

  /** An entry's manifest, where there is one, names a blob that is there; only
      a doomed entry may be without. */
  ghost predicate EntryBacked(d: Disk, c: Snapshot, e: Entry) {
    && (HasManifest(d, e.id) ==> Names(d.entries[e.id].children[MANIFEST], e.blobId) && e.blobId in d.blobs)
    && (!Doomed(c, e) ==> HasManifest(d, e.id))
  }

  /** Every record not under a deleting claim has its bytes on disk. */
  ghost predicate Backed(d: Disk, c: Snapshot) {
    && (forall b | b in c.blobs && b.state == BlobPublished :: b.id in d.blobs)
    && (forall e | e in c.entries :: EntryBacked(d, c, e))
  }

  ghost predicate Consistent(w: World, sizes: Sizes) {
    TidyDisk(w.disk, sizes) && TidyCatalog(w.catalog, sizes) && Backed(w.disk, w.catalog)
  }

  /** What consistency means for a reader: a record outside every claim can be
      opened and verified. */
  lemma ConsistentMeansReadable(w: World, sizes: Sizes)
    requires Consistent(w, sizes)
    ensures forall b | b in w.catalog.blobs && b.state == BlobPublished ::
      b.id in w.disk.blobs && w.disk.blobs[b.id] == (b.id, b.size)
    ensures forall e | e in w.catalog.entries && !Doomed(w.catalog, e) ::
      EntryVerified(e.id, DirectoryAt(w.disk.entries, e.id), w.disk.blobs)
        && DirectoryAt(w.disk.entries, e.id).children[MANIFEST].data.blobId == e.blobId
    ensures forall e | e in w.catalog.entries ::
      EntryDeletable(DirectoryAt(w.disk.entries, e.id), e.id, e.blobId, w.disk.blobs)
  {
    forall e | e in w.catalog.entries && !Doomed(w.catalog, e)
      ensures EntryVerified(e.id, DirectoryAt(w.disk.entries, e.id), w.disk.blobs)
      ensures DirectoryAt(w.disk.entries, e.id).children[MANIFEST].data.blobId == e.blobId
    {
      assert EntryBacked(w.disk, w.catalog, e) && TidyEntry(w.disk.entries[e.id], e.id, sizes);
    }
    forall e | e in w.catalog.entries
      ensures EntryDeletable(DirectoryAt(w.disk.entries, e.id), e.id, e.blobId, w.disk.blobs)
    {
      assert EntryBacked(w.disk, w.catalog, e);
      EntryIsDeletable(w.disk, w.catalog, e, sizes);
    }
  }

  lemma EntryIsDeletable(d: Disk, c: Snapshot, e: Entry, sizes: Sizes)
    requires TidyDisk(d, sizes) && EntryBacked(d, c, e)
    ensures EntryDeletable(DirectoryAt(d.entries, e.id), e.id, e.blobId, d.blobs)
  {
    if e.id in d.entries {
      var dir := d.entries[e.id];
      assert TidyEntry(dir, e.id, sizes);
      if MANIFEST in dir.children {
        assert dir.children.Keys == {MANIFEST};
      } else {
        assert dir.children.Keys == {};
        assert dir.children == map[];
      }
    }
  }

  // ----- Catalog transactions keep the invariant -----

  /** The catalog writes that happen outside the manager's lock, and marking a
      materialization as deleting: blobs stay, entries change freshness only,
      materializations keep their source, references only go away and claims not
      even that, no lease comes back. */
  ghost predicate Mild(c: Snapshot, r: Snapshot) {
    && r.blobs == c.blobs
    && |r.entries| == |c.entries|
    && (forall i | 0 <= i < |c.entries| :: r.entries[i] == c.entries[i].(freshness := r.entries[i].freshness))
    && |r.materializations| == |c.materializations|
    && (forall i | 0 <= i < |c.materializations| :: SameSource(c.materializations[i], r.materializations[i]))
    && (forall n | n in r.materializations && n.state == Deleting :: n in c.materializations || Unused(c, n.id))
    && (forall x | x in r.references :: x in c.references)
    && (forall x | x in c.references && x.owner.EvictionClaim? :: x in r.references)
    && (forall t :: Leased(r, t) ==> Leased(c, t))
  }

  ghost predicate SameSource(m: Materialization, n: Materialization) {
    n.id == m.id && n.entryId == m.entryId && n.baselineBlobId == m.baselineBlobId && n.pinned == m.pinned
      && 0 <= n.size
  }

  lemma MildEntry(c: Snapshot, r: Snapshot, e: Entry) returns (f: Entry)
    requires Mild(c, r) && e in c.entries
    ensures f in r.entries && f == e.(freshness := f.freshness)
  {
    var i :| 0 <= i < |c.entries| && c.entries[i] == e;
    f := r.entries[i];
  }

  lemma MildEntryBack(c: Snapshot, r: Snapshot, f: Entry) returns (e: Entry)
    requires Mild(c, r) && f in r.entries
    ensures e in c.entries && f == e.(freshness := f.freshness)
  {
    var i :| 0 <= i < |r.entries| && r.entries[i] == f;
    e := c.entries[i];
  }

  lemma MildMaterialization(c: Snapshot, r: Snapshot, m: Materialization) returns (n: Materialization)
    requires Mild(c, r) && m in c.materializations
    ensures n in r.materializations && SameSource(m, n)
  {
    var i :| 0 <= i < |c.materializations| && c.materializations[i] == m;
    n := r.materializations[i];
  }

  lemma MildMaterializationBack(c: Snapshot, r: Snapshot, n: Materialization) returns (m: Materialization)
    requires Mild(c, r) && n in r.materializations
    ensures m in c.materializations && SameSource(m, n)
  {
    var i :| 0 <= i < |r.materializations| && r.materializations[i] == n;
    m := c.materializations[i];
  }

  lemma MildMaterialized(c: Snapshot, r: Snapshot, id: string)
    requires Mild(c, r)
    ensures Materialized(r, id) <==> Materialized(c, id)
    ensures IsBaseline(r, id) <==> IsBaseline(c, id)
  {
    hide Mild;
    forall m | m in c.materializations ensures m.entryId == id ==> Materialized(r, id) {
      var n := MildMaterialization(c, r, m);
    }
    forall m | m in c.materializations ensures m.baselineBlobId == id ==> IsBaseline(r, id) {
      var n := MildMaterialization(c, r, m);
    }
    forall n | n in r.materializations ensures n.entryId == id ==> Materialized(c, id) {
      var m := MildMaterializationBack(c, r, n);
    }
    forall n | n in r.materializations ensures n.baselineBlobId == id ==> IsBaseline(c, id) {
      var m := MildMaterializationBack(c, r, n);
    }
  }

  lemma MildTables(c: Snapshot, r: Snapshot)
    requires Mild(c, r)
    ensures r.blobs == c.blobs
    ensures forall t :: Leased(r, t) ==> Leased(c, t)
    ensures forall x | x in r.references :: x in c.references
    ensures forall id, b :: Claimed(r, id, b) <==> Claimed(c, id, b)
    ensures forall t :: Referenced(r, t) ==> Referenced(c, t)
    ensures forall n | n in r.materializations && n.state == Deleting :: n in c.materializations || Unused(c, n.id)
    ensures forall id :: PublishedBlob(r, id) <==> PublishedBlob(c, id)
    ensures forall id :: DeletingBlob(r, id) <==> DeletingBlob(c, id)
  {
  }

  lemma MildLinked(c: Snapshot, r: Snapshot)
    requires Mild(c, r) && WellLinked(c)
    ensures WellLinked(r)
  {
    assert Distinct(r.entries, EntryKey) by {
      assert forall i | 0 <= i < |r.entries| :: EntryKey(r.entries[i]) == EntryKey(c.entries[i]);
    }
    assert Distinct(r.materializations, MaterializationKey) by {
      assert forall i | 0 <= i < |r.materializations| :: SameSource(c.materializations[i], r.materializations[i]);
    }
    MildTables(c, r);
    hide Mild, Distinct;
    forall e | e in c.entries ensures EntryKey(e) in EntryIds(r) {
      var f := MildEntry(c, r, e);
      assert EntryKey(f) in EntryIds(r);
    }
    forall f | f in r.entries ensures f.blobId in BlobIds(r) {
      var e := MildEntryBack(c, r, f);
    }
    forall n | n in r.materializations
      ensures n.entryId in EntryIds(r) && n.baselineBlobId in BlobIds(r) && 0 <= n.size
    {
      var m := MildMaterializationBack(c, r, n);
    }
  }

  lemma MildUnheld(c: Snapshot, r: Snapshot, id: string)
    requires Mild(c, r) && Unheld(c, id)
    ensures Unheld(r, id)
  {
    MildTables(c, r);
    MildMaterialized(c, r, id);
    hide Mild, Materialized, IsBaseline, Claimed, Referenced, Leased, PublishedBlob, DeletingBlob, SameSource;
    forall e | e in r.entries && e.blobId == id ensures !e.pinned && !Materialized(r, e.id) {
      var f := MildEntryBack(c, r, e);
      MildMaterialized(c, r, e.id);
    }
    forall e, f | e in r.entries && f in r.entries && e.blobId == id && f.blobId == id ensures e.id == f.id {
      var x := MildEntryBack(c, r, e);
      var y := MildEntryBack(c, r, f);
    }
  }

  lemma MildClaim(c: Snapshot, r: Snapshot, x: Reference)
    requires Mild(c, r) && x.owner.EvictionClaim? && ClaimStands(c, x)
    ensures ClaimStands(r, x)
  {
    MildTables(c, r);
    var e :| e in c.entries && e.id == x.owner.entryId && x.target == BlobTarget(e.blobId) && !Materialized(c, e.id)
      && PublishedBlob(c, e.blobId);
    var f := MildEntry(c, r, e);
    MildMaterialized(c, r, e.id);
  }

  lemma MildSource(c: Snapshot, r: Snapshot, n: Materialization)
    requires Mild(c, r) && n in r.materializations
    requires forall m | m in c.materializations :: SourceMatches(c, m)
    ensures SourceMatches(r, n)
  {
    var m := MildMaterializationBack(c, r, n);
    assert SourceMatches(c, m);
    var e :| e in c.entries && e.id == m.entryId && e.blobId == m.baselineBlobId;
    var f := MildEntry(c, r, e);
  }

  lemma MildKeeps(d: Disk, c: Snapshot, r: Snapshot, sizes: Sizes)
    requires Mild(c, r) && Consistent(World(d, c), sizes)
    ensures Consistent(World(d, r), sizes)
  {
    MildTables(c, r);
    MildLinked(c, r);
    hide Mild, WellLinked, Materialized, IsBaseline, Claimed, Referenced, Leased, PublishedBlob, DeletingBlob,
      SameSource, ClaimStands, SourceMatches, Unheld;
    forall b | b in r.blobs && b.state == BlobDeleting ensures Unheld(r, b.id) { MildUnheld(c, r, b.id); }
    forall x | x in r.references && x.owner.EvictionClaim? ensures ClaimStands(r, x) { MildClaim(c, r, x); }
    forall n | n in r.materializations ensures SourceMatches(r, n) { MildSource(c, r, n); }
    forall f | f in r.entries ensures EntryBacked(d, r, f) {
      var e := MildEntryBack(c, r, f);
      assert EntryBacked(d, c, e);
    }
  }
}
