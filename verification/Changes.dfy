/** When each catalog transaction is granted, what it changes, and what it leaves as
    it is. */
module CacheChanges {
  import opened Wrappers
  import opened Keyed
  import opened CacheRecords
  import opened CacheEviction
  import opened CacheCatalog
  import opened CacheTransactions

  // ----- When they are granted -----

  /** A publication conflicts with a row of another content, state or identity. */
  ghost predicate PublishConflicts(c: Snapshot, blob: Blob, entry: Entry) {
    || entry.blobId != blob.id || blob.state != BlobPublished || blob.size < 0
    || (exists b | b in c.blobs :: b.id == blob.id && (b.size != blob.size || b.state != BlobPublished))
    || (exists e | e in c.entries :: e.id == entry.id && !SameIdentity(e, entry))
  }

  lemma PublishExact(c: Snapshot, blob: Blob, entry: Entry)
    requires WellLinked(c)
    ensures Publish(c, blob, entry).Some? <==> !PublishConflicts(c, blob, entry)
  {
    hide SameIdentity;
    forall b | b in c.blobs && b.id == blob.id ensures BlobRow(c.blobs, blob.id) == Some(b) {
      RowUnique(c, b, BlobRow(c.blobs, blob.id).value);
    }
    forall e | e in c.entries && e.id == entry.id ensures EntryRow(c.entries, entry.id) == Some(e) {
      EntryUnique(c, e, EntryRow(c.entries, entry.id).value);
    }
    hide BlobRow, EntryRow, WellLinked;
  }

  /** The target is there, and nothing keeps it: no pin, use, reference or lease. */
  ghost predicate Claimable(c: Snapshot, t: EvictionTarget) {
    match t
    case MaterializationEviction(id) =>
      && (exists m | m in c.materializations :: m.id == id && m.state == Clean && !m.pinned)
      && !Referenced(c, MaterializationTarget(id)) && !Leased(c, MaterializationTarget(id))
    case EntryEviction(id) =>
      exists e | e in c.entries ::
        && e.id == id && EntryClaimable(c, e)
        && (if EntryCount(c.entries, e.blobId) == 1 then !IsBaseline(c, e.blobId)
            else ClaimReferenceId(id) !in Keys(c.references, ReferenceKey))
    case BlobEviction(id) =>
      && PublishedBlob(c, id) && (forall e | e in c.entries :: e.blobId != id) && !IsBaseline(c, id)
      && !Referenced(c, BlobTarget(id)) && !Leased(c, BlobTarget(id))
  }

  lemma BeginExact(c: Snapshot, t: EvictionTarget, at: Time)
    requires WellLinked(c)
    ensures BeginEviction(c, t, at).Some? <==> Claimable(c, t)
  {
    match t
    case MaterializationEviction(id) =>
      forall m | m in c.materializations && m.id == id ensures MaterializationRow(c.materializations, id) == Some(m) {
        KeyInjective(c.materializations, MaterializationKey, m, MaterializationRow(c.materializations, id).value);
      }
    case EntryEviction(id) =>
      forall e | e in c.entries && e.id == id ensures EntryRow(c.entries, id) == Some(e) {
        EntryUnique(c, e, EntryRow(c.entries, id).value);
      }
      hide EntryRow, BlobRow, WellLinked;
      assert ClaimReferenceId(id) in Keys(c.references, ReferenceKey) <==>
        exists r | r in c.references :: r.id == ClaimReferenceId(id);
    case BlobEviction(id) =>
      forall b | b in c.blobs && b.id == id ensures BlobRow(c.blobs, id) == Some(b) {
        RowUnique(c, b, BlobRow(c.blobs, id).value);
      }
  }

  /** Something stands against a handoff: records that do not belong together, an
      identifier that is taken, or an entry that is not there, not intact or claimed. */
  ghost predicate HandoffConflicts(c: Snapshot, m: Materialization, reference: Reference, lease: Lease) {
    || reference.target != MaterializationTarget(m.id) || lease.target != MaterializationTarget(m.id) || m.size < 0
    || reference.owner.EvictionClaim? || m.state == Deleting || lease.state != Active
    || m.id in MaterializationIds(c) || reference.id in Keys(c.references, ReferenceKey)
    || lease.id in Keys(c.leases, LeaseKey)
    || !(exists e | e in c.entries :: e.id == m.entryId && e.blobId == m.baselineBlobId)
    || !PublishedBlob(c, m.baselineBlobId) || Claimed(c, m.entryId, m.baselineBlobId)
  }

  lemma HandoffExact(c: Snapshot, m: Materialization, reference: Reference, lease: Lease)
    requires WellLinked(c)
    ensures PrepareHandoff(c, m, reference, lease).Some? <==> !HandoffConflicts(c, m, reference, lease)
  {
    forall e | e in c.entries && e.id == m.entryId ensures EntryRow(c.entries, m.entryId) == Some(e) {
      EntryUnique(c, e, EntryRow(c.entries, m.entryId).value);
    }
    var row := MaterializationRow(c.materializations, m.id);
    assert m.id in MaterializationIds(c) <==> row.Some? by {
      if row.Some? { assert MaterializationKey(row.value) in MaterializationIds(c); }
    }
    hide EntryRow, MaterializationRow, WellLinked, PublishedBlob, Claimed;
    assert reference.id in Keys(c.references, ReferenceKey) <==> exists r | r in c.references :: r.id == reference.id;
    assert lease.id in Keys(c.leases, LeaseKey) <==> exists l | l in c.leases :: l.id == lease.id;
  }

  // ----- Publishing -----

  /** The row is the published entry, with an access time no older than given. */
  predicate IsEntry(x: Entry, entry: Entry) {
    && SameIdentity(x, entry) && x.freshness == entry.freshness && x.policy == entry.policy && x.pinned == entry.pinned
    && entry.lastAccessAt <= x.lastAccessAt
  }

  predicate IsBlob(x: Blob, blob: Blob) {
    x.size == blob.size && x.state == BlobPublished && blob.lastAccessAt <= x.lastAccessAt
  }

  /** A publication adds or refreshes the two rows under its identifiers, and leaves
      every other row alone. */
  lemma PublishChanges(c: Snapshot, blob: Blob, entry: Entry)
    requires WellLinked(c) && Publish(c, blob, entry).Some?
    ensures var r := Publish(c, blob, entry).value;
      && r.materializations == c.materializations && r.references == c.references && r.leases == c.leases
      && BlobIds(r) == BlobIds(c) + {blob.id} && EntryIds(r) == EntryIds(c) + {entry.id}
      && (forall x: Blob | x.id != blob.id :: x in r.blobs <==> x in c.blobs)
      && (forall x | x in r.blobs && x.id == blob.id :: IsBlob(x, blob))
      && (forall x: Entry | x.id != entry.id :: x in r.entries <==> x in c.entries)
      && (forall x | x in r.entries && x.id == entry.id :: IsEntry(x, entry))
  {
    PublishBlobs(c, blob, entry);
    PublishEntries(c, blob, entry);
  }

  lemma TouchedRows(blobs: seq<Blob>, blob: Blob)
    requires blob.id in Keys(blobs, BlobKey)
    requires forall x | x in blobs && x.id == blob.id :: x.size == blob.size && x.state == BlobPublished
    ensures var r := TouchBlobs(blobs, blob.id, blob.lastAccessAt);
      && Keys(r, BlobKey) == Keys(blobs, BlobKey) + {blob.id}
      && (forall x: Blob | x.id != blob.id :: x in r <==> x in blobs)
      && (forall x | x in r && x.id == blob.id :: IsBlob(x, blob))
  {
    var r := TouchBlobs(blobs, blob.id, blob.lastAccessAt);
    forall x | x in r && x.id == blob.id ensures IsBlob(x, blob) {
      var i :| 0 <= i < |r| && r[i] == x;
      assert blobs[i] in blobs;
    }
    hide IsBlob;
    forall x | x in blobs ensures x.id in Keys(r, BlobKey) && (x.id != blob.id ==> x in r) {
      var i :| 0 <= i < |blobs| && blobs[i] == x;
      assert r[i] in r && BlobKey(r[i]) in Keys(r, BlobKey);
    }
    forall x | x in r ensures x.id in Keys(blobs, BlobKey) && (x.id != blob.id ==> x in blobs) {
      var i :| 0 <= i < |r| && r[i] == x;
      assert blobs[i] in blobs && BlobKey(blobs[i]) in Keys(blobs, BlobKey);
    }
  }

  lemma PublishBlobs(c: Snapshot, blob: Blob, entry: Entry)
    requires WellLinked(c) && Publish(c, blob, entry).Some?
    ensures var r := Publish(c, blob, entry).value;
      && BlobIds(r) == BlobIds(c) + {blob.id}
      && (forall x: Blob | x.id != blob.id :: x in r.blobs <==> x in c.blobs)
      && (forall x | x in r.blobs && x.id == blob.id :: IsBlob(x, blob))
  {
    hide TouchBlobs, RefreshEntries, IsBlob;
    var r := Publish(c, blob, entry).value;
    var row := BlobRow(c.blobs, blob.id);
    if row.Some? {
      assert r.blobs == TouchBlobs(c.blobs, blob.id, blob.lastAccessAt);
      assert row.value.size == blob.size && row.value.state == BlobPublished;
      hide Publish, BlobRow, EntryRow;
      assert BlobKey(row.value) in BlobIds(c);
      forall x | x in c.blobs && x.id == blob.id ensures x == row.value {
        RowUnique(c, x, row.value);
      }
      hide WellLinked;
      TouchedRows(c.blobs, blob);
    } else {
      assert r.blobs == c.blobs + [blob] && blob.state == BlobPublished;
      hide Publish, BlobRow, EntryRow, WellLinked;
      AppendKeys(c.blobs, blob, BlobKey);
      assert IsBlob(blob, blob) by { BlobItself(blob); }
    }
  }

  lemma BlobItself(blob: Blob)
    requires blob.state == BlobPublished
    ensures IsBlob(blob, blob)
  {
  }

  lemma AppendKeys<T(!new)>(items: seq<T>, x: T, key: T -> string)
    ensures Keys(items + [x], key) == Keys(items, key) + {key(x)}
  {
    assert x in items + [x];
    forall y | y in items ensures y in items + [x] {}
  }

  lemma RefreshedRows(entries: seq<Entry>, entry: Entry)
    requires entry.id in Keys(entries, EntryKey)
    requires forall x | x in entries && x.id == entry.id :: SameIdentity(x, entry)
    ensures var r := RefreshEntries(entries, entry);
      && Keys(r, EntryKey) == Keys(entries, EntryKey) + {entry.id}
      && (forall x: Entry | x.id != entry.id :: x in r <==> x in entries)
      && (forall x | x in r && x.id == entry.id :: IsEntry(x, entry))
  {
    var r := RefreshEntries(entries, entry);
    forall x | x in r && x.id == entry.id ensures IsEntry(x, entry) {
      var i :| 0 <= i < |r| && r[i] == x;
      assert entries[i] in entries;
    }
    hide IsEntry, SameIdentity;
    forall x | x in entries ensures x.id in Keys(r, EntryKey) && (x.id != entry.id ==> x in r) {
      var i :| 0 <= i < |entries| && entries[i] == x;
      assert r[i] in r && EntryKey(r[i]) in Keys(r, EntryKey);
    }
    forall x | x in r ensures x.id in Keys(entries, EntryKey) && (x.id != entry.id ==> x in entries) {
      var i :| 0 <= i < |r| && r[i] == x;
      assert entries[i] in entries && EntryKey(entries[i]) in Keys(entries, EntryKey);
    }
  }

  lemma PublishEntries(c: Snapshot, blob: Blob, entry: Entry)
    requires WellLinked(c) && Publish(c, blob, entry).Some?
    ensures var r := Publish(c, blob, entry).value;
      && EntryIds(r) == EntryIds(c) + {entry.id}
      && (forall x: Entry | x.id != entry.id :: x in r.entries <==> x in c.entries)
      && (forall x | x in r.entries && x.id == entry.id :: IsEntry(x, entry))
  {
    hide RefreshEntries, IsEntry;
    var r := Publish(c, blob, entry).value;
    var row := EntryRow(c.entries, entry.id);
    if row.Some? {
      assert r.entries == RefreshEntries(c.entries, entry);
      assert SameIdentity(row.value, entry);
      hide Publish, BlobRow, EntryRow, SameIdentity;
      assert EntryKey(row.value) in EntryIds(c);
      forall x | x in c.entries && x.id == entry.id ensures SameIdentity(x, entry) {
        EntryUnique(c, x, row.value);
      }
      hide WellLinked;
      RefreshedRows(c.entries, entry);
    } else {
      assert r.entries == c.entries + [entry];
      hide Publish, BlobRow, EntryRow, WellLinked;
      AppendKeys(c.entries, entry, EntryKey);
      assert IsEntry(entry, entry) by { EntryItself(entry); }
    }
  }

  lemma EntryItself(entry: Entry)
    ensures IsEntry(entry, entry)
  {
  }

  // ----- Claiming -----

  /** A claim marks the one row it is about, or adds one reserved reference, and
      leaves everything else alone. */
  ghost predicate Claims(c: Snapshot, r: Snapshot, k: Claim, at: Time) {
    && r.entries == c.entries && r.leases == c.leases
    && match SubjectOf(k)
       case MaterializationSubject(id) =>
         && r.blobs == c.blobs && r.references == c.references && |r.materializations| == |c.materializations|
         && forall i | 0 <= i < |c.materializations| ::
              r.materializations[i] == if c.materializations[i].id == id then c.materializations[i].(state := Deleting)
                                       else c.materializations[i]
       case BlobSubject(id) =>
         && r.materializations == c.materializations && r.references == c.references && |r.blobs| == |c.blobs|
         && forall i | 0 <= i < |c.blobs| ::
              r.blobs[i] == if c.blobs[i].id == id then c.blobs[i].(state := BlobDeleting) else c.blobs[i]
       case EntrySubject(id) =>
         && r.materializations == c.materializations && r.blobs == c.blobs && k.EntryClaim?
         && exists x: Reference :: x.owner == EvictionClaim(id) && x.target == BlobTarget(k.blobId) && x.createdAt == at
              && x.id !in Keys(c.references, ReferenceKey)
              && multiset(r.references) == multiset(c.references) + multiset{x}
  }

  lemma BeginChanges(c: Snapshot, t: EvictionTarget, at: Time)
    requires BeginEviction(c, t, at).Some?
    ensures Claims(c, BeginEviction(c, t, at).value.0, BeginEviction(c, t, at).value.1, at)
  {
    var (r, k) := BeginEviction(c, t, at).value;
    if SubjectOf(k).EntrySubject? {
      var x := Reference(ClaimReferenceId(k.entryId), EvictionClaim(k.entryId), BlobTarget(k.blobId), at);
      assert r.references == c.references + [x];
      assert multiset(r.references) == multiset(c.references) + multiset{x};
    }
  }

  // ----- Finalizing -----

  /** The released leases of a target are gone, and no others. */
  ghost predicate LeasesSwept(c: Snapshot, r: Snapshot, t: Target) {
    forall l :: l in r.leases <==> l in c.leases && !(l.target == t && l.state == Released)
  }

  ghost predicate Finalizes(c: Snapshot, r: Snapshot, k: Claim) {
    match k
    case MaterializationClaim(id, _, _) =>
      && r.blobs == c.blobs && r.entries == c.entries && r.references == c.references
      && (forall m :: m in r.materializations <==> m in c.materializations && m.id != id)
      && LeasesSwept(c, r, MaterializationTarget(id))
    case EntryClaim(id, blobId, _, shared) =>
      && r.materializations == c.materializations
      && (forall e :: e in r.entries <==> e in c.entries && e.id != id)
      && (if shared then
            && r.blobs == c.blobs && r.leases == c.leases
            && (forall x :: x in r.references <==>
                 x in c.references && !(x.owner == EvictionClaim(id) && x.target == BlobTarget(blobId)))
          else
            && r.references == c.references && LeasesSwept(c, r, BlobTarget(blobId))
            && (forall b :: b in r.blobs <==> b in c.blobs && b.id != blobId))
    case BlobClaim(blobId, _) =>
      && r.materializations == c.materializations && r.entries == c.entries && r.references == c.references
      && (forall b :: b in r.blobs <==> b in c.blobs && b.id != blobId)
      && LeasesSwept(c, r, BlobTarget(blobId))
  }

  lemma {:induction false} KeptLeases(leases: seq<Lease>, t: Target)
    ensures forall l :: l in KeepLeases(leases, t) <==> l in leases && !(l.target == t && l.state == Released)
  {
    if leases != [] {
      KeptLeases(leases[..|leases| - 1], t);
      assert leases == leases[..|leases| - 1] + [leases[|leases| - 1]];
    }
  }

  /** Finalizing removes exactly the claimed rows, the claim itself and the released
      leases on what goes. */
  lemma FinalizeChanges(c: Snapshot, k: Claim)
    requires FinalizeEviction(c, k).Some?
    ensures Finalizes(c, FinalizeEviction(c, k).value, k)
  {
    match k
    case MaterializationClaim(id, _, _) =>
      WithoutMembers(c.materializations, MaterializationKey, id);
      KeptLeases(c.leases, MaterializationTarget(id));
    case BlobClaim(id, _) =>
      WithoutMembers(c.blobs, BlobKey, id);
      KeptLeases(c.leases, BlobTarget(id));
    case EntryClaim(id, blobId, _, shared) =>
      WithoutMembers(c.entries, EntryKey, id);
      WithoutMembers(c.blobs, BlobKey, blobId);
      KeptLeases(c.leases, BlobTarget(blobId));
      ClaimDropped(c.references, id, blobId);
  }
}
