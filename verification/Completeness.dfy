/** When the planner gives up: exactly what is left. */
module CacheCompleteness {
  import opened Wrappers
  import opened Keyed
  import opened CacheRecords
  import opened CacheLeases
  import opened CacheAccounting
  import opened CacheEviction
  import opened CacheEffects
  import opened CacheCandidates
  import opened CachePlanner

  ghost predicate EntryKept(s: Snapshot, mgr: Option<LeaseManager>, e: Entry) {
    e.pinned || Materialized(s, e.id) || BlobGuarded(s, mgr, e.blobId)
  }

  ghost predicate MaterializationKept(s: Snapshot, mgr: Option<LeaseManager>, m: Materialization) {
    m.pinned || m.state != Clean || MaterializationGuarded(s, mgr, m.id)
  }

  /** Only the object count is over: the planner is stuck exactly when every
      entry is pinned, materialized or has a guarded blob, and every
      materialization is pinned, not clean or guarded. */
  lemma StuckOnObjects(s: Snapshot, mgr: Option<LeaseManager>, limits: Limits)
    requires Sound(s, mgr) && FitsBytes(s, limits) && Objects(s) > limits.globalEntries
    ensures Stuck(s, mgr, limits) <==>
      && (forall e | e in s.entries :: EntryKept(s, mgr, e))
      && (forall m | m in s.materializations :: MaterializationKept(s, mgr, m))
  {
    if Stuck(s, mgr, limits) {
      forall e | e in s.entries ensures EntryKept(s, mgr, e) {
        if !EntryKept(s, mgr, e) {
          assert Eligible(s, mgr, true, EntryEviction(e.id));
          EvictEffect(s, mgr, EntryEviction(e.id));
        }
      }
      forall m | m in s.materializations ensures MaterializationKept(s, mgr, m) {
        if !MaterializationKept(s, mgr, m) {
          assert Eligible(s, mgr, true, MaterializationEviction(m.id));
          EvictEffect(s, mgr, MaterializationEviction(m.id));
        }
      }
    } else {
      var t :| Eligible(s, mgr, true, t) && Improves(s, Evict(s, mgr, t), limits);
      EvictEffect(s, mgr, t);
      assert !t.BlobEviction?;
    }
  }

  /** Only the global byte limit is over: shared entries are off the table, so
      the planner is stuck exactly when no unshared entry, no materialization
      and no stray blob can free a byte. */
  lemma StuckOnBytes(s: Snapshot, mgr: Option<LeaseManager>, limits: Limits)
    requires Sound(s, mgr) && GlobalBytes(s) > limits.globalBytes && Objects(s) <= limits.globalEntries
    requires forall w | w in WorkspaceIds(s) :: WorkspaceBytes(s, {w}) <= limits.workspaceBytes
    ensures Stuck(s, mgr, limits) <==> forall t | Eligible(s, mgr, false, t) :: Freed(s, mgr, t) == 0
  {
    forall t | Eligible(s, mgr, false, t) ensures Improves(s, Evict(s, mgr, t), limits) <==> Freed(s, mgr, t) != 0 {
      EligibleRelax(s, mgr, false, t);
      EvictEffect(s, mgr, t);
      FreedNonNegative(s, mgr, t);
    }
  }

  lemma FreedNonNegative(s: Snapshot, mgr: Option<LeaseManager>, t: EvictionTarget)
    requires WellLinked(s)
    ensures 0 <= Freed(s, mgr, t)
  {
    forall ids ensures 0 <= BlobBytes(s, ids) && 0 <= MaterializationBytes(s, ids) {
      BytesMonotone(s.blobs, BlobKey, BlobSize, ids, ids);
      BytesMonotone(s.materializations, MaterializationKey, MaterializationSize, ids, ids);
    }
  }

  lemma SoleEntry(s: Snapshot, e: Entry)
    requires WellLinked(s) && e in s.entries && EntryCount(s.entries, e.blobId) <= 1
    ensures forall x | x in s.entries && x.blobId == e.blobId :: x == e
  {
    forall x | x in s.entries && x.blobId == e.blobId ensures x == e {
      if x != e { CountAtLeastTwo(s.entries, x, e); }
    }
  }

  lemma {:induction false} CountAtLeastTwo(entries: seq<Entry>, x: Entry, y: Entry)
    requires x in entries && y in entries && x.blobId == y.blobId && x != y
    ensures 2 <= EntryCount(entries, x.blobId)
  {
    var init, last := entries[..|entries| - 1], entries[|entries| - 1];
    assert entries == init + [last];
    if x == last || y == last {
      EntryCountZero(init, x.blobId);
    } else {
      CountAtLeastTwo(init, x, y);
    }
  }

  /** Every entry of the workspace with bytes is kept or shares its blob, and every
      one of its materializations with bytes is kept. */
  ghost predicate WorkspaceKept(s: Snapshot, mgr: Option<LeaseManager>, w: string) {
    && (forall e, b | e in s.entries && b in s.blobs && b.id == e.blobId && e.workspaceId == w && 0 < b.size ::
         EntryKept(s, mgr, e) || 1 < EntryCount(s.entries, e.blobId))
    && (forall m, e | m in s.materializations && e in s.entries && e.id == m.entryId && e.workspaceId == w
      && 0 < m.size ::
         MaterializationKept(s, mgr, m))
  }

  ghost predicate Over(s: Snapshot, limits: Limits, w: string) {
    w in WorkspaceIds(s) && WorkspaceBytes(s, {w}) > limits.workspaceBytes
  }

  /** Only workspaces are over their share: the planner is stuck exactly when each
      of those has nothing left but what is kept or shared. */
  lemma StuckOnWorkspace(s: Snapshot, mgr: Option<LeaseManager>, limits: Limits)
    requires Sound(s, mgr) && GlobalBytes(s) <= limits.globalBytes && Objects(s) <= limits.globalEntries
    requires !FitsBytes(s, limits)
    ensures Stuck(s, mgr, limits) <==> forall w | Over(s, limits, w) :: WorkspaceKept(s, mgr, w)
  {
    hide WorkspaceKept, WorkspaceBytes, GlobalBytes, Sound;
    if Stuck(s, mgr, limits) {
      forall w | Over(s, limits, w) ensures WorkspaceKept(s, mgr, w) { StuckKeeps(s, mgr, limits, w); }
    }
    if forall w | Over(s, limits, w) :: WorkspaceKept(s, mgr, w) {
      forall t | Eligible(s, mgr, false, t) ensures !Improves(s, Evict(s, mgr, t), limits) {
        forall w | Over(s, limits, w) ensures WorkspaceBytes(Evict(s, mgr, t), {w}) >= WorkspaceBytes(s, {w}) {
          KeptStays(s, mgr, w, t);
        }
      }
    }
  }

  /** The same for one workspace, whatever else is over. */
  lemma StuckKeeps(s: Snapshot, mgr: Option<LeaseManager>, limits: Limits, w: string)
    requires Sound(s, mgr) && Stuck(s, mgr, limits) && Over(s, limits, w)
    ensures WorkspaceKept(s, mgr, w)
  {
    forall e, b | e in s.entries && b in s.blobs && b.id == e.blobId && e.workspaceId == w && 0 < b.size
      ensures EntryKept(s, mgr, e) || 1 < EntryCount(s.entries, e.blobId)
    {
      if EntryEvictable(s, mgr, false, e) {
        assert Eligible(s, mgr, false, EntryEviction(e.id));
        EntryReleasesWorkspace(s, mgr, e, b);
      }
    }
    forall m, e | m in s.materializations && e in s.entries && e.id == m.entryId && e.workspaceId == w && 0 < m.size
      ensures MaterializationKept(s, mgr, m)
    {
      if MaterializationEvictable(s, mgr, m) {
        assert Eligible(s, mgr, false, MaterializationEviction(m.id));
        MaterializationReleasesWorkspace(s, mgr, m, e);
      }
    }
  }

  /** No victim takes bytes from a workspace whose records are kept. */
  lemma KeptStays(s: Snapshot, mgr: Option<LeaseManager>, w: string, t: EvictionTarget)
    requires Sound(s, mgr) && WorkspaceKept(s, mgr, w) && Eligible(s, mgr, false, t)
    ensures WorkspaceBytes(Evict(s, mgr, t), {w}) >= WorkspaceBytes(s, {w})
  {
    hide WorkspaceBytes, GlobalBytes, SharedBytes, Objects, WorkspaceKept, BlobGuarded;
    match t
    case BlobEviction(id) =>
      var b :| b in s.blobs && b.id == id && BlobEvictable(s, mgr, b);
      RemoveAllOne(s, t);
      RemoveBlobEffect(s, b);
    case MaterializationEviction(id) =>
      var m :| m in s.materializations && m.id == id && MaterializationEvictable(s, mgr, m);
      KeptWithoutMaterialization(s, mgr, w, m);
    case EntryEviction(id) =>
      var e :| e in s.entries && e.id == id && EntryEvictable(s, mgr, false, e);
      KeptWithoutEntry(s, mgr, w, e);
  }

  lemma KeptWithoutMaterialization(s: Snapshot, mgr: Option<LeaseManager>, w: string, m: Materialization)
    requires Sound(s, mgr) && WorkspaceKept(s, mgr, w) && m in s.materializations && MaterializationEvictable(s, mgr, m)
    ensures WorkspaceBytes(Evict(s, mgr, MaterializationEviction(m.id)), {w}) >= WorkspaceBytes(s, {w})
  {
    hide WorkspaceBytes, Evict, WellLinked, EntryKept, MaterializationGuarded;
    var e := SourceEntry(s, m);
    if e.workspaceId == w { MaterializationReleasesWorkspace(s, mgr, m, e); }
      else { MaterializationSparesWorkspace(s, mgr, m, e, w); }
  }

  lemma KeptWithoutEntry(s: Snapshot, mgr: Option<LeaseManager>, w: string, e: Entry)
    requires Sound(s, mgr) && WorkspaceKept(s, mgr, w) && e in s.entries && EntryEvictable(s, mgr, false, e)
    ensures WorkspaceBytes(Evict(s, mgr, EntryEviction(e.id)), {w}) >= WorkspaceBytes(s, {w})
  {
    hide WorkspaceBytes, Evict, WellLinked, EntryCount, Materialized, BlobGuarded, MaterializationKept;
    var b := BlobOf(s, e);
    if e.workspaceId == w { EntryReleasesWorkspace(s, mgr, e, b); } else { EntrySparesWorkspace(s, mgr, e, b, w); }
  }

  lemma SourceEntry(s: Snapshot, m: Materialization) returns (e: Entry)
    requires WellLinked(s) && m in s.materializations
    ensures e in s.entries && e.id == m.entryId
  {
    assert m.entryId in EntryIds(s);
    e :| e in s.entries && e.id == m.entryId;
  }

  lemma BlobOf(s: Snapshot, e: Entry) returns (b: Blob)
    requires WellLinked(s) && e in s.entries
    ensures b in s.blobs && b.id == e.blobId
  {
    assert e.blobId in BlobIds(s);
    b :| b in s.blobs && b.id == e.blobId;
  }

  lemma OwnedWithout(s: Snapshot, r: Snapshot, m: Materialization, w: string)
    requires r == Remove(s, MaterializationEviction(m.id))
    ensures OwnedBlobs(r, {w}) == OwnedBlobs(s, {w})
    ensures OwnedMaterializations(r, {w}) == OwnedMaterializations(s, {w}) - {m.id}
  {
    WithoutMembers(s.materializations, MaterializationKey, m.id);
  }

  lemma MaterializationSparesWorkspace(s: Snapshot, mgr: Option<LeaseManager>, m: Materialization, e: Entry, w: string)
    requires Sound(s, mgr) && m in s.materializations && e in s.entries && e.id == m.entryId && e.workspaceId != w
    ensures WorkspaceBytes(Evict(s, mgr, MaterializationEviction(m.id)), {w}) == WorkspaceBytes(s, {w})
  {
    var t := MaterializationEviction(m.id);
    var r := Remove(s, t);
    RemoveAllOne(s, t);
    WithoutMembers(s.materializations, MaterializationKey, m.id);
    OwnedWithout(s, r, m, w);
    var owned := OwnedMaterializations(s, {w});
    assert m.id !in owned by {
      forall x, y | x in s.materializations && y in s.entries && y.id == x.entryId && x.id == m.id ensures y == e {
        KeyInjective(s.materializations, MaterializationKey, x, m);
        KeyInjective(s.entries, EntryKey, y, e);
      }
    }
    assert owned - {m.id} == owned;
    BytesWithout(s.materializations, MaterializationKey, MaterializationSize, m.id, owned);
  }

  lemma EntrySparesWorkspace(s: Snapshot, mgr: Option<LeaseManager>, e: Entry, b: Blob, w: string)
    requires Sound(s, mgr) && e in s.entries && b in s.blobs && b.id == e.blobId && EntryEvictable(s, mgr, false, e)
    requires e.workspaceId != w
    ensures WorkspaceBytes(Evict(s, mgr, EntryEviction(e.id)), {w}) == WorkspaceBytes(s, {w})
  {
    var t := EntryEviction(e.id);
    var r := Remove(s, t);
    SoleEntry(s, e);
    WithoutMembers(s.entries, EntryKey, e.id);
    OwnedByOthers(s, r, e, b, w);
    EntryConsequences(s, mgr, e);
    RemoveAllOne(s, t);
    if !BlobReachable(r, b.id) {
      RemoveAllTwo(s, t, BlobEviction(b.id));
      RemoveKeepsSound(s, mgr, t);
      RemoveBlobEffect(r, b);
    }
  }

  lemma OwnedByOthers(s: Snapshot, r: Snapshot, e: Entry, b: Blob, w: string)
    requires WellLinked(s) && r == Remove(s, EntryEviction(e.id)) && e in s.entries && b in s.blobs && b.id == e.blobId
    requires !Materialized(s, e.id) && (forall x | x in s.entries && x.blobId == e.blobId :: x == e)
    requires e.workspaceId != w
    ensures WorkspaceBytes(r, {w}) == WorkspaceBytes(s, {w})
  {
    WithoutMembers(s.entries, EntryKey, e.id);
    assert Owners(s, b.id) == {e.workspaceId};
    assert Owners(r, b.id) == {};
    OwnersElsewhere(s, r, e, b);
    assert OwnedBlobs(r, {w}) == OwnedBlobs(s, {w});
    assert OwnedMaterializations(r, {w}) == OwnedMaterializations(s, {w});
  }

  lemma OwnersElsewhere(s: Snapshot, r: Snapshot, e: Entry, b: Blob)
    requires WellLinked(s) && r == Remove(s, EntryEviction(e.id)) && e in s.entries && b.id == e.blobId
    ensures forall x | x in s.blobs && x.id != b.id :: Owners(r, x.id) == Owners(s, x.id)
  {
    WithoutMembers(s.entries, EntryKey, e.id);
    forall x | x in s.blobs && x.id != b.id ensures Owners(r, x.id) == Owners(s, x.id) {
      forall y | y in s.entries && y.blobId == x.id ensures y in r.entries {
        if y.id == e.id { KeyInjective(s.entries, EntryKey, y, e); }
      }
    }
  }

  lemma EntryReleasesWorkspace(s: Snapshot, mgr: Option<LeaseManager>, e: Entry, b: Blob)
    requires Sound(s, mgr) && e in s.entries && b in s.blobs && b.id == e.blobId && EntryEvictable(s, mgr, false, e)
    ensures WorkspaceBytes(Evict(s, mgr, EntryEviction(e.id)), {e.workspaceId})
      == WorkspaceBytes(s, {e.workspaceId}) - b.size
  {
    var t, w := EntryEviction(e.id), e.workspaceId;
    var r := Remove(s, t);
    SoleEntry(s, e);
    WithoutMembers(s.entries, EntryKey, e.id);
    OwnedAfterSoleEntry(s, r, e, b);
    EntryConsequences(s, mgr, e);
    RemoveAllOne(s, t);
    if !BlobReachable(r, b.id) {
      RemoveAllTwo(s, t, BlobEviction(b.id));
      RemoveKeepsSound(s, mgr, t);
      RemoveBlobEffect(r, b);
    }
  }

  lemma OwnedAfterSoleEntry(s: Snapshot, r: Snapshot, e: Entry, b: Blob)
    requires WellLinked(s) && r == Remove(s, EntryEviction(e.id)) && e in s.entries && b in s.blobs && b.id == e.blobId
    requires !Materialized(s, e.id) && forall x | x in s.entries && x.blobId == e.blobId :: x == e
    ensures WorkspaceBytes(r, {e.workspaceId}) == WorkspaceBytes(s, {e.workspaceId}) - b.size
  {
    var w := e.workspaceId;
    WithoutMembers(s.entries, EntryKey, e.id);
    assert Owners(s, b.id) == {w};
    assert Owners(r, b.id) == {};
    OwnersElsewhere(s, r, e, b);
    assert b.id in OwnedBlobs(s, {w});
    assert OwnedBlobs(r, {w}) == OwnedBlobs(s, {w}) - {b.id};
    BytesInsert(s.blobs, BlobKey, BlobSize, OwnedBlobs(s, {w}) - {b.id}, b);
    assert OwnedBlobs(s, {w}) - {b.id} + {b.id} == OwnedBlobs(s, {w});
    assert OwnedMaterializations(r, {w}) == OwnedMaterializations(s, {w});
  }

  lemma MaterializationReleasesWorkspace(s: Snapshot, mgr: Option<LeaseManager>, m: Materialization, e: Entry)
    requires Sound(s, mgr) && m in s.materializations && e in s.entries && e.id == m.entryId
    ensures WorkspaceBytes(Evict(s, mgr, MaterializationEviction(m.id)), {e.workspaceId})
      == WorkspaceBytes(s, {e.workspaceId}) - m.size
  {
    var t, w := MaterializationEviction(m.id), e.workspaceId;
    var r := Remove(s, t);
    RemoveAllOne(s, t);
    WithoutMembers(s.materializations, MaterializationKey, m.id);
    OwnedWithout(s, r, m, w);
    var owned := OwnedMaterializations(s, {w});
    assert m.id in owned;
    BytesWithout(s.materializations, MaterializationKey, MaterializationSize, m.id, owned - {m.id});
    assert owned - {m.id} - {m.id} == owned - {m.id};
    BytesInsert(s.materializations, MaterializationKey, MaterializationSize, owned - {m.id}, m);
    assert owned - {m.id} + {m.id} == owned;
  }

  // ----- The price of setting shared entries aside -----

  ghost function Hex(c: char, n: nat): string { seq(n, i => c) }

  /** Two unprotected entries on one blob of two bytes. */
  ghost function SharedPair(): Snapshot {
    var mark := Fingerprint(Strong, "f");
    Snapshot(
      [Blob(Hex('a', 64), 2, BlobPublished, 1, 1)],
      [Entry(Hex('b', 64), "host", "/b", mark, Fresh, LRU, "w", false, Hex('a', 64), 1, 1),
       Entry(Hex('c', 64), "host", "/c", mark, Fresh, LRU, "w", false, Hex('a', 64), 1, 1)],
      [], [], [])
  }

  const ONE_BYTE := Limits(1, 10, 10, 256)

  /** Greedy completeness stops at single victims: over the byte limit the
      planner gives up on a shared blob that nothing protects, although evicting
      both of its entries would fit. */
  lemma SharedBlobBlocksBytes()
    ensures var s := SharedPair();
      && ValidSnapshot(s)
      && (forall e | e in s.entries :: !EntryKept(s, None, e))
      && !Fits(s, ONE_BYTE) && Stuck(s, None, ONE_BYTE)
      && Fits(RemoveAll(s, [EntryEviction(Hex('b', 64)), EntryEviction(Hex('c', 64)), BlobEviction(Hex('a', 64))]),
        ONE_BYTE)
  {
    var s := SharedPair();
    var a, b, c := Hex('a', 64), Hex('b', 64), Hex('c', 64);
    assert a[0] == 'a' && b[0] == 'b' && c[0] == 'c';
    SharedPairValid();
    var blob, e, f := s.blobs[0], s.entries[0], s.entries[1];
    BytesOne(s.blobs, BlobKey, BlobSize, blob);
    assert BlobIds(s) == {BlobKey(blob)};
    BytesNone(s.materializations, MaterializationKey, MaterializationSize, MaterializationIds(s));
    CountAtLeastTwo(s.entries, e, f);
    assert Guarded(s, None) == {};
    var r := RemoveAll(s, [EntryEviction(b), EntryEviction(c), BlobEviction(a)]);
    RemoveAllMembers(s, [EntryEviction(b), EntryEviction(c), BlobEviction(a)]);
    assert forall x | x in r.entries :: x in s.entries;
    EmptyFits(r);
  }

  lemma SharedPairValid()
    ensures ValidSnapshot(SharedPair())
  {
    var s := SharedPair();
    var a, b, c := Hex('a', 64), Hex('b', 64), Hex('c', 64);
    assert a[0] == 'a' && b[0] == 'b' && c[0] == 'c';
    assert BlobKey(s.blobs[0]) in BlobIds(s);
    assert EntryKey(s.entries[0]) != EntryKey(s.entries[1]);
  }

  lemma EmptyFits(r: Snapshot)
    requires (forall b :: b !in r.blobs) && (forall e :: e !in r.entries) && (forall m :: m !in r.materializations)
    ensures Fits(r, ONE_BYTE)
  {
    NonemptyHasMember(r.blobs);
    NonemptyHasMember(r.entries);
    NonemptyHasMember(r.materializations);
  }

  lemma NonemptyHasMember<T(!new)>(s: seq<T>)
    ensures s == [] || exists x :: x in s
  {
    assert s == [] || s[0] in s;
  }
}
