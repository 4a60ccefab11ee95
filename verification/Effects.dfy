/** How evicting moves the quota numbers. */
module CacheEffects {
  import opened Wrappers
  import opened Keyed
  import opened CacheRecords
  import opened CacheLeases
  import opened CacheAccounting
  import opened CacheEviction

  ghost function Objects(s: Snapshot): nat { |s.entries| + |s.materializations| }

  /** No total rises, except that a workspace may inherit bytes leaving the
      shared pool. */
  ghost predicate Shrinks(s: Snapshot, r: Snapshot) {
    && GlobalBytes(r) <= GlobalBytes(s)
    && Objects(r) <= Objects(s)
    && SharedBytes(r) <= SharedBytes(s)
    && forall w :: WorkspaceBytes(r, {w}) <= WorkspaceBytes(s, {w}) + SharedBytes(s) - SharedBytes(r)
  }

  lemma ShrinksTransitive(s: Snapshot, r: Snapshot, q: Snapshot)
    requires Shrinks(s, r) && Shrinks(r, q)
    ensures Shrinks(s, q)
  {
    forall w ensures WorkspaceBytes(q, {w}) <= WorkspaceBytes(s, {w}) + SharedBytes(s) - SharedBytes(q) {
      assert WorkspaceBytes(r, {w}) <= WorkspaceBytes(s, {w}) + SharedBytes(s) - SharedBytes(r);
    }
  }

  // ----- A blob nobody names -----

  lemma RemoveBlobEffect(s: Snapshot, b: Blob)
    requires WellLinked(s) && b in s.blobs && !BlobReachable(s, b.id)
    ensures var r := Remove(s, BlobEviction(b.id));
      && GlobalBytes(r) == GlobalBytes(s) - b.size && Objects(r) == Objects(s)
      && SharedBytes(r) == SharedBytes(s)
      && forall w :: WorkspaceBytes(r, {w}) == WorkspaceBytes(s, {w})
  {
    var r := Remove(s, BlobEviction(b.id));
    WithoutMembers(s.blobs, BlobKey, b.id);
    assert Owners(s, b.id) == {};
    assert forall id :: Owners(r, id) == Owners(s, id);
    BytesWithout(s.blobs, BlobKey, BlobSize, b.id, BlobIds(r));
    WithoutKeys(s.blobs, BlobKey, b.id);
    BytesInsert(s.blobs, BlobKey, BlobSize, BlobIds(s) - {b.id}, b);
    assert BlobIds(s) - {b.id} + {b.id} == BlobIds(s) && BlobIds(r) - {b.id} == BlobIds(s) - {b.id};
    PoolAfterBlob(s, r, b, SharedBlobs(s), SharedBlobs(r));
    forall w ensures WorkspaceBytes(r, {w}) == WorkspaceBytes(s, {w}) {
      PoolAfterBlob(s, r, b, OwnedBlobs(s, {w}), OwnedBlobs(r, {w}));
      assert OwnedMaterializations(r, {w}) == OwnedMaterializations(s, {w});
    }
  }

  lemma PoolAfterBlob(s: Snapshot, r: Snapshot, b: Blob, before: set<string>, after: set<string>)
    requires r == Remove(s, BlobEviction(b.id)) && after == before - {b.id} == before
    ensures BlobBytes(r, after) == BlobBytes(s, before)
  {
    BytesWithout(s.blobs, BlobKey, BlobSize, b.id, after);
  }

  // ----- A materialization -----

  lemma RemoveMaterializationEffect(s: Snapshot, m: Materialization)
    requires WellLinked(s) && m in s.materializations
    ensures var r := Remove(s, MaterializationEviction(m.id));
      && GlobalBytes(r) == GlobalBytes(s) - m.size && Objects(r) == Objects(s) - 1
      && SharedBytes(r) == SharedBytes(s)
      && forall w :: WorkspaceBytes(r, {w}) <= WorkspaceBytes(s, {w})
  {
    var r := Remove(s, MaterializationEviction(m.id));
    WithoutMembers(s.materializations, MaterializationKey, m.id);
    WithoutKeys(s.materializations, MaterializationKey, m.id);
    WithoutDistinct(s.materializations, MaterializationKey, m.id);
    var ids := MaterializationIds(s);
    assert m.id in ids by { assert MaterializationKey(m) in ids; }
    BytesWithout(s.materializations, MaterializationKey, MaterializationSize, m.id, ids - {m.id});
    BytesInsert(s.materializations, MaterializationKey, MaterializationSize, ids - {m.id}, m);
    assert ids - {m.id} + {m.id} == ids && ids - {m.id} - {m.id} == ids - {m.id};
    assert SharedBlobs(r) == SharedBlobs(s);
    forall w ensures WorkspaceBytes(r, {w}) <= WorkspaceBytes(s, {w}) {
      assert OwnedBlobs(r, {w}) == OwnedBlobs(s, {w});
      BytesWithout(s.materializations, MaterializationKey, MaterializationSize, m.id, OwnedMaterializations(r, {w}));
      BytesMonotone(s.materializations, MaterializationKey, MaterializationSize,
        OwnedMaterializations(r, {w}) - {m.id}, OwnedMaterializations(s, {w}));
    }
  }

  // ----- An entry -----

  lemma RemoveEntryEffect(s: Snapshot, e: Entry)
    requires WellLinked(s) && e in s.entries && !Materialized(s, e.id)
    ensures var r := Remove(s, EntryEviction(e.id));
      && GlobalBytes(r) == GlobalBytes(s) && Objects(r) == Objects(s) - 1 && Shrinks(s, r)
  {
    var r := Remove(s, EntryEviction(e.id));
    WithoutMembers(s.entries, EntryKey, e.id);
    WithoutDistinct(s.entries, EntryKey, e.id);
    assert EntryKey(e) in EntryIds(s);
    assert forall id :: Owners(r, id) <= Owners(s, id);
    SharedPoolShrinks(s, r);
    forall w ensures WorkspaceBytes(r, {w}) <= WorkspaceBytes(s, {w}) + SharedBytes(s) - SharedBytes(r) {
      EntryOwnedBytes(s, r, w);
      assert OwnedMaterializations(r, {w}) == OwnedMaterializations(s, {w});
    }
  }

  lemma SharedPoolShrinks(s: Snapshot, r: Snapshot)
    requires WellLinked(s) && r.blobs == s.blobs && forall id :: Owners(r, id) <= Owners(s, id)
    ensures SharedBlobs(r) <= SharedBlobs(s) && SharedBytes(r) <= SharedBytes(s)
  {
    forall id | id in SharedBlobs(r) ensures id in SharedBlobs(s) {
      SubsetSize(Owners(r, id), Owners(s, id));
    }
    BytesMonotone(s.blobs, BlobKey, BlobSize, SharedBlobs(r), SharedBlobs(s));
  }

  /** A workspace gains a blob only when the blob leaves the shared pool. */
  lemma EntryOwnedBytes(s: Snapshot, r: Snapshot, w: string)
    requires WellLinked(s) && r.blobs == s.blobs && forall id :: Owners(r, id) <= Owners(s, id)
    ensures BlobBytes(r, OwnedBlobs(r, {w})) <= BlobBytes(s, OwnedBlobs(s, {w})) + SharedBytes(s) - SharedBytes(r)
  {
    SharedPoolShrinks(s, r);
    var leaving := SharedBlobs(s) - SharedBlobs(r);
    forall id | id in OwnedBlobs(r, {w}) ensures id in OwnedBlobs(s, {w}) + leaving {
      var owners := Owners(s, id);
      assert w in Owners(r, id) && w in owners;
      if |owners| == 1 { SingletonOwner(owners); } else { SubsetSize({w}, owners); }
    }
    forall id | id in OwnedBlobs(s, {w}) ensures id !in leaving { assert Owners(s, id) == {w}; }
    BytesMonotone(s.blobs, BlobKey, BlobSize, OwnedBlobs(r, {w}), OwnedBlobs(s, {w}) + leaving);
    BytesAdditive(s.blobs, BlobKey, BlobSize, OwnedBlobs(s, {w}), leaving);
    BytesAdditive(s.blobs, BlobKey, BlobSize, SharedBlobs(r), leaving);
    assert SharedBlobs(r) + leaving == SharedBlobs(s);
  }

  // ----- A victim with its consequences -----

  /** Evicting an eligible victim never raises a total; entries and
      materializations each cost exactly one object. */
  lemma EvictEffect(s: Snapshot, mgr: Option<LeaseManager>, t: EvictionTarget)
    requires Sound(s, mgr) && Eligible(s, mgr, true, t)
    ensures Shrinks(s, Evict(s, mgr, t))
    ensures Objects(Evict(s, mgr, t)) == Objects(s) - (if t.BlobEviction? then 0 else 1)
    ensures GlobalBytes(Evict(s, mgr, t)) == GlobalBytes(s) - Freed(s, mgr, t)
  {
    RemoveAllOne(s, t);
    match t {
      case BlobEviction(id) =>
        var b :| b in s.blobs && b.id == id && BlobEvictable(s, mgr, b);
        RemoveBlobEffect(s, b);
        FreedOne(s, mgr, t);
      case MaterializationEviction(id) =>
        var m :| m in s.materializations && m.id == id && MaterializationEvictable(s, mgr, m);
        RemoveMaterializationEffect(s, m);
        FreedOne(s, mgr, t);
      case EntryEviction(id) =>
        var e :| e in s.entries && e.id == id && EntryEvictable(s, mgr, true, e);
        EvictEntryEffect(s, mgr, e);
    }
  }

  /** Bytes that leave the disk with a victim. */
  ghost function Freed(s: Snapshot, mgr: Option<LeaseManager>, t: EvictionTarget): int {
    match t
    case MaterializationEviction(id) => MaterializationBytes(s, {id})
    case BlobEviction(id) => BlobBytes(s, {id})
    case EntryEviction(id) =>
      var all := Consequences(s, mgr, t);
      if |all| == 2 && all[1].BlobEviction? then BlobBytes(s, {all[1].blobId}) else 0
  }

  lemma FreedOne(s: Snapshot, mgr: Option<LeaseManager>, t: EvictionTarget)
    requires WellLinked(s)
    ensures t.BlobEviction? ==> forall b | b in s.blobs && b.id == t.blobId :: Freed(s, mgr, t) == b.size
    ensures t.MaterializationEviction? ==>
      forall m | m in s.materializations && m.id == t.materializationId :: Freed(s, mgr, t) == m.size
  {
    if t.BlobEviction? {
      forall b | b in s.blobs && b.id == t.blobId
        ensures Freed(s, mgr, t) == b.size
      {
        BytesOne(s.blobs, BlobKey, BlobSize, b);
      }
    }
    if t.MaterializationEviction? {
      forall m | m in s.materializations && m.id == t.materializationId ensures Freed(s, mgr, t) == m.size {
        BytesOne(s.materializations, MaterializationKey, MaterializationSize, m);
      }
    }
  }

  lemma EvictEntryEffect(s: Snapshot, mgr: Option<LeaseManager>, e: Entry)
    requires Sound(s, mgr) && e in s.entries && EntryEvictable(s, mgr, true, e)
    ensures var t := EntryEviction(e.id);
      && Shrinks(s, Evict(s, mgr, t)) && Objects(Evict(s, mgr, t)) == Objects(s) - 1
      && GlobalBytes(Evict(s, mgr, t)) == GlobalBytes(s) - Freed(s, mgr, t)
  {
    hide GlobalBytes, SharedBytes, WorkspaceBytes, Objects;
    var t := EntryEviction(e.id);
    var mid := Remove(s, t);
    RemoveEntryEffect(s, e);
    EntryConsequences(s, mgr, e);
    RemoveAllOne(s, t);
    if !BlobReachable(mid, e.blobId) {
      RemoveAllTwo(s, t, BlobEviction(e.blobId));
      var b :| b in s.blobs && b.id == e.blobId;
      RemoveKeepsSound(s, mgr, t);
      RemoveBlobEffect(mid, b);
      BytesOne(s.blobs, BlobKey, BlobSize, b);
      assert Shrinks(mid, Remove(mid, BlobEviction(e.blobId)));
      ShrinksTransitive(s, mid, Remove(mid, BlobEviction(e.blobId)));
    }
  }
}
