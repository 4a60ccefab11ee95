/** Each catalog transaction, run at a moment when the stores are consistent,
    leaves them consistent. */
module CacheTransactions {
  import opened Wrappers
  import opened Keyed
  import opened CacheRecords
  import opened CacheLeases
  import opened CacheEviction
  import opened CacheCatalog
  import opened CacheDeletion
  import opened CacheStores

  lemma RowUnique(c: Snapshot, a: Blob, b: Blob)
    requires WellLinked(c) && a in c.blobs && b in c.blobs && a.id == b.id
    ensures a == b
  {
    KeyInjective(c.blobs, BlobKey, a, b);
  }

  lemma EntryUnique(c: Snapshot, a: Entry, b: Entry)
    requires WellLinked(c) && a in c.entries && b in c.entries && a.id == b.id
    ensures a == b
  {
    KeyInjective(c.entries, EntryKey, a, b);
  }

  lemma PublishedNotDeleting(c: Snapshot, id: string)
    requires WellLinked(c) && PublishedBlob(c, id)
    ensures !DeletingBlob(c, id)
    ensures forall b | b in c.blobs && b.id == id :: b.state == BlobPublished
  {
    var a :| a in c.blobs && a.id == id && a.state == BlobPublished;
    forall b | b in c.blobs && b.id == id ensures b.state == BlobPublished { RowUnique(c, a, b); }
  }

  // ----- Marking a blob as deleting -----

  ghost function MarkDeleting(c: Snapshot, id: string): Snapshot {
    c.(blobs := SetBlobState(c.blobs, id, BlobDeleting))
  }

  lemma MarkRow(c: Snapshot, id: string, x: Blob) returns (b: Blob)
    requires x in MarkDeleting(c, id).blobs
    ensures b in c.blobs && x == (if b.id == id then b.(state := BlobDeleting) else b)
  {
    var i :| 0 <= i < |MarkDeleting(c, id).blobs| && MarkDeleting(c, id).blobs[i] == x;
    b := c.blobs[i];
  }

  lemma MarkRowForward(c: Snapshot, id: string, b: Blob) returns (x: Blob)
    requires b in c.blobs
    ensures x in MarkDeleting(c, id).blobs && x == (if b.id == id then b.(state := BlobDeleting) else b)
  {
    var i :| 0 <= i < |c.blobs| && c.blobs[i] == b;
    x := MarkDeleting(c, id).blobs[i];
  }

  lemma MarkLinked(c: Snapshot, id: string)
    requires WellLinked(c)
    ensures WellLinked(MarkDeleting(c, id))
  {
    var r := MarkDeleting(c, id);
    assert Distinct(r.blobs, BlobKey) by {
      assert forall i | 0 <= i < |r.blobs| :: BlobKey(r.blobs[i]) == BlobKey(c.blobs[i]);
    }
    assert r.entries == c.entries && r.materializations == c.materializations;
    hide MarkDeleting, Distinct;
    forall b | b in c.blobs ensures BlobKey(b) in BlobIds(r) {
      var x := MarkRowForward(c, id, b);
      assert BlobKey(x) in BlobIds(r);
    }
    forall x | x in r.blobs ensures 0 <= x.size { var b := MarkRow(c, id, x); }
  }

  lemma MarkStates(c: Snapshot, id: string, other: string)
    ensures DeletingBlob(c, other) ==> DeletingBlob(MarkDeleting(c, id), other)
    ensures other != id && PublishedBlob(c, other) ==> PublishedBlob(MarkDeleting(c, id), other)
  {
    hide MarkDeleting;
    forall b | b in c.blobs && b.id == other
      ensures b.state == BlobDeleting ==> DeletingBlob(MarkDeleting(c, id), other)
      ensures other != id && b.state == BlobPublished ==> PublishedBlob(MarkDeleting(c, id), other)
    {
      var x := MarkRowForward(c, id, b);
    }
  }

  lemma MarkDeletingKeeps(d: Disk, c: Snapshot, id: string, sizes: Sizes)
    requires Consistent(World(d, c), sizes) && Unheld(c, id)
    ensures Consistent(World(d, MarkDeleting(c, id)), sizes)
  {
    var r := MarkDeleting(c, id);
    MarkLinked(c, id);
    assert r.entries == c.entries && r.materializations == c.materializations && r.references == c.references
      && r.leases == c.leases;
    hide MarkDeleting, WellLinked, DeletingBlob, PublishedBlob;
    forall x | x in r.blobs
      ensures x.size == sizes(x.id) && (x.state == BlobDeleting ==> Unheld(c, x.id))
      ensures (x.state == BlobPublished ==> x.id in d.blobs)
    {
      var b := MarkRow(c, id, x);
    }
    forall x | x in r.blobs && x.state == BlobDeleting ensures Unheld(r, x.id) { SameHolds(c, r, x.id); }
    forall x | x in r.references && x.owner.EvictionClaim? ensures ClaimStands(r, x) {
      var e :| e in c.entries && e.id == x.owner.entryId && x.target == BlobTarget(e.blobId) && !Materialized(c, e.id)
        && PublishedBlob(c, e.blobId);
      MarkStates(c, id, e.blobId);
    }
    forall e | e in r.entries ensures EntryBacked(d, r, e) {
      MarkStates(c, id, e.blobId);
      assert EntryBacked(d, c, e);
    }
    forall m | m in r.materializations ensures SourceMatches(r, m) { assert SourceMatches(c, m); }
  }

  lemma SameHolds(c: Snapshot, r: Snapshot, id: string)
    requires r.entries == c.entries && r.materializations == c.materializations && r.references == c.references
    requires r.leases == c.leases
    ensures Unheld(r, id) == Unheld(c, id)
  {
  }

  // ----- Claiming a shared entry -----

  lemma ClaimSharedKeeps(d: Disk, c: Snapshot, e: Entry, claim: Reference, sizes: Sizes)
    requires Consistent(World(d, c), sizes) && e in c.entries && PublishedBlob(c, e.blobId) && !Materialized(c, e.id)
    requires claim.owner == EvictionClaim(e.id) && claim.target == BlobTarget(e.blobId)
    ensures Consistent(World(d, c.(references := c.references + [claim])), sizes)
  {
    var r := c.(references := c.references + [claim]);
    PublishedNotDeleting(c, e.blobId);
    ReferencesGrow(c, claim);
    assert WellLinked(r);
    hide WellLinked, PublishedBlob, DeletingBlob, Materialized, IsBaseline, Leased, Referenced, Claimed;
    forall b | b in r.blobs && b.state == BlobDeleting ensures Unheld(r, b.id) {
      assert Unheld(c, b.id);
      assert b.id != e.blobId;
    }
    forall x | x in r.references && x.owner.EvictionClaim? ensures ClaimStands(r, x) {
      assert x != claim ==> ClaimStands(c, x);
    }
    forall f | f in r.entries ensures EntryBacked(d, r, f) { assert EntryBacked(d, c, f); }
    forall m | m in r.materializations ensures SourceMatches(r, m) { assert SourceMatches(c, m); }
    forall m | m in r.materializations && m.state == Deleting ensures Unused(r, m.id) { assert Unused(c, m.id); }
  }

  lemma ReferencesGrow(c: Snapshot, claim: Reference)
    ensures var r := c.(references := c.references + [claim]);
      && (forall t :: Referenced(r, t) <==> Referenced(c, t) || t == claim.target)
      && (forall t :: Leased(r, t) == Leased(c, t))
      && (forall id :: Materialized(r, id) == Materialized(c, id) && IsBaseline(r, id) == IsBaseline(c, id))
      && (forall id :: PublishedBlob(r, id) == PublishedBlob(c, id) && DeletingBlob(r, id) == DeletingBlob(c, id))
      && (forall id, b :: Claimed(c, id, b) ==> Claimed(r, id, b))
  {
    var r := c.(references := c.references + [claim]);
    assert claim in r.references && forall x | x in c.references :: x in r.references;
  }

  // ----- Removing rows -----

  lemma LeasesShrink(leases: seq<Lease>, t: Target)
    ensures forall l | l in KeepLeases(leases, t) :: l in leases && !(l.target == t && l.state == Released)
  {
    if leases != [] {
      LeasesShrink(leases[..|leases| - 1], t);
    }
  }

  lemma ClaimDropped(references: seq<Reference>, entryId: string, blobId: string)
    ensures forall r :: r in DropClaim(references, entryId, blobId) <==>
      r in references && !(r.owner == EvictionClaim(entryId) && r.target == BlobTarget(blobId))
  {
    if references != [] {
      ClaimDropped(references[..|references| - 1], entryId, blobId);
      assert references == references[..|references| - 1] + [references[|references| - 1]];
    }
  }

  /** Rows go away, but never from under a row that stays. */
  ghost predicate Thinner(c: Snapshot, r: Snapshot) {
    && (forall b | b in r.blobs :: b in c.blobs)
    && (forall e | e in r.entries :: e in c.entries)
    && (forall m | m in r.materializations :: m in c.materializations)
    && (forall x | x in r.references :: x in c.references)
    && (forall t :: Leased(r, t) ==> Leased(c, t))
    && (forall e, b | e in r.entries && b in c.blobs && b.id == e.blobId :: b in r.blobs)
    && (forall e, x | e in r.entries && x in c.references && x.owner == EvictionClaim(e.id) :: x in r.references)
    && (forall e, x | e in c.entries && x in r.references && x.owner == EvictionClaim(e.id) :: e in r.entries)
    && (forall e, m | e in c.entries && m in r.materializations && m.entryId == e.id :: e in r.entries)
  }

  lemma ThinnerKeeps(d: Disk, c: Snapshot, r: Snapshot, sizes: Sizes)
    requires Consistent(World(d, c), sizes) && Thinner(c, r) && WellLinked(r)
    ensures Consistent(World(d, r), sizes)
  {
    hide WellLinked, Leased;
    forall b | b in r.blobs && b.state == BlobDeleting ensures Unheld(r, b.id) { assert Unheld(c, b.id); }
    forall x | x in r.references && x.owner.EvictionClaim? ensures ClaimStands(r, x) { ThinnerClaim(c, r, x); }
    forall m | m in r.materializations ensures SourceMatches(r, m) {
      assert SourceMatches(c, m);
      var e :| e in c.entries && e.id == m.entryId && e.blobId == m.baselineBlobId;
      assert e in r.entries;
    }
    forall e | e in r.entries ensures EntryBacked(d, r, e) {
      assert EntryBacked(d, c, e);
      assert Doomed(c, e) ==> Doomed(r, e);
    }
  }

  lemma ThinnerClaim(c: Snapshot, r: Snapshot, x: Reference)
    requires Thinner(c, r) && x in r.references && x.owner.EvictionClaim? && ClaimStands(c, x)
    ensures ClaimStands(r, x)
  {
    var e :| e in c.entries && e.id == x.owner.entryId && x.target == BlobTarget(e.blobId) && !Materialized(c, e.id)
      && PublishedBlob(c, e.blobId);
    assert x.owner == EvictionClaim(e.id);
    assert e in r.entries && !Materialized(r, e.id);
    var b :| b in c.blobs && b.id == e.blobId && b.state == BlobPublished;
    assert b in r.blobs;
  }

  lemma RemoveMaterializationKeeps(d: Disk, c: Snapshot, id: string, leases: seq<Lease>, sizes: Sizes)
    requires Consistent(World(d, c), sizes) && forall l | l in leases :: l in c.leases
    ensures Consistent(World(d,
      c.(materializations := Without(c.materializations, MaterializationKey, id), leases := leases)), sizes)
  {
    var r := c.(materializations := Without(c.materializations, MaterializationKey, id), leases := leases);
    WithoutMembers(c.materializations, MaterializationKey, id);
    WithoutDistinct(c.materializations, MaterializationKey, id);
    ThinnerKeeps(d, c, r, sizes);
  }

  lemma RemoveEntryKeeps(d: Disk, c: Snapshot, id: string, references: seq<Reference>, sizes: Sizes)
    requires Consistent(World(d, c), sizes) && !Materialized(c, id)
    requires forall x | x in references :: x in c.references && x.owner != EvictionClaim(id)
    requires forall x | x in c.references && x.owner != EvictionClaim(id) :: x in references
    ensures Consistent(World(d, c.(entries := Without(c.entries, EntryKey, id), references := references)), sizes)
  {
    var r := c.(entries := Without(c.entries, EntryKey, id), references := references);
    EntryRemoved(c, id, references);
    hide Consistent, Thinner, WellLinked, Materialized;
    ThinnerKeeps(d, c, r, sizes);
  }

  lemma EntryRemoved(c: Snapshot, id: string, references: seq<Reference>)
    requires WellLinked(c) && !Materialized(c, id)
    requires forall x | x in references :: x in c.references && x.owner != EvictionClaim(id)
    requires forall x | x in c.references && x.owner != EvictionClaim(id) :: x in references
    ensures var r := c.(entries := Without(c.entries, EntryKey, id), references := references);
      Thinner(c, r) && WellLinked(r)
  {
    hide Leased;
    WithoutMembers(c.entries, EntryKey, id);
    WithoutDistinct(c.entries, EntryKey, id);
    WithoutKeys(c.entries, EntryKey, id);
    assert forall t :: Leased(c.(entries := Without(c.entries, EntryKey, id), references := references), t) ==>
      Leased(c, t)
      by { LeasesSame(c, c.(entries := Without(c.entries, EntryKey, id), references := references)); }
  }

  lemma LeasesSame(c: Snapshot, r: Snapshot)
    requires r.leases == c.leases
    ensures forall t :: Leased(r, t) ==> Leased(c, t)
  {
  }

  lemma RemoveBlobKeeps(d: Disk, c: Snapshot, id: string, leases: seq<Lease>, sizes: Sizes)
    requires Consistent(World(d, c), sizes) && forall l | l in leases :: l in c.leases
    requires (forall e | e in c.entries :: e.blobId != id) && !IsBaseline(c, id)
    ensures Consistent(World(d, c.(blobs := Without(c.blobs, BlobKey, id), leases := leases)), sizes)
  {
    var r := c.(blobs := Without(c.blobs, BlobKey, id), leases := leases);
    WithoutMembers(c.blobs, BlobKey, id);
    WithoutDistinct(c.blobs, BlobKey, id);
    WithoutKeys(c.blobs, BlobKey, id);
    ThinnerKeeps(d, c, r, sizes);
  }

  // ----- Claim and finalize -----

  lemma MarkMaterializationMild(c: Snapshot, id: string)
    requires WellLinked(c) && Unused(c, id)
    ensures Mild(c, c.(materializations := SetMaterializationState(c.materializations, id, Deleting)))
  {
    var r := c.(materializations := SetMaterializationState(c.materializations, id, Deleting));
    forall i | 0 <= i < |c.materializations| ensures SameSource(c.materializations[i], r.materializations[i]) {
      assert c.materializations[i] in c.materializations;
    }
    forall n | n in r.materializations && n.state == Deleting ensures n in c.materializations || Unused(c, n.id) {
      var i :| 0 <= i < |r.materializations| && r.materializations[i] == n;
      assert c.materializations[i] in c.materializations;
    }
  }

  lemma {:induction false} CountOneUnique(entries: seq<Entry>, blobId: string, e: Entry)
    requires e in entries && e.blobId == blobId && EntryCount(entries, blobId) == 1
    ensures forall f | f in entries && f.blobId == blobId :: f == e
  {
    var init, last := entries[..|entries| - 1], entries[|entries| - 1];
    assert entries == init + [last];
    if last.blobId == blobId {
      CountNone(init, blobId);
    } else {
      CountOneUnique(init, blobId, e);
    }
  }

  lemma {:induction false} CountNone(entries: seq<Entry>, blobId: string)
    requires EntryCount(entries, blobId) == 0
    ensures forall f | f in entries :: f.blobId != blobId
  {
    if entries != [] {
      CountNone(entries[..|entries| - 1], blobId);
    }
  }

  /** A claim is only granted where it keeps the stores consistent, and is then
      in force. */
  lemma BeginKeeps(d: Disk, c: Snapshot, t: EvictionTarget, at: Time, sizes: Sizes)
    requires Consistent(World(d, c), sizes) && BeginEviction(c, t, at).Some?
    ensures Consistent(World(d, BeginEviction(c, t, at).value.0), sizes)
    ensures Pending(BeginEviction(c, t, at).value.0, BeginEviction(c, t, at).value.1)
  {
    match t
    case MaterializationEviction(id) => BeginMaterialization(d, c, id, at, sizes);
    case EntryEviction(id) => BeginEntry(d, c, id, at, sizes);
    case BlobEviction(id) => BeginBlob(d, c, id, at, sizes);
  }

  /** Unreleased leases and references are all that guards a target once every
      released lease is reclaimable. */
  lemma UnheldUnguarded(c: Snapshot, t: Target, mgr: LeaseManager)
    requires !Referenced(c, t) && !Leased(c, t)
    ensures t !in Guarded(c, Some(mgr))
  {
    forall l | l in c.leases && l.target == t ensures IsReclaimable(Some(mgr), l) {
      assert l.state == Released;
    }
  }

  /** The claim rechecks everything: whatever it grants is eligible for eviction,
      however generously the leases are classified. */
  lemma ClaimGrantsEligible(c: Snapshot, t: EvictionTarget, at: Time, mgr: LeaseManager)
    requires BeginEviction(c, t, at).Some?
    ensures Eligible(c, Some(mgr), true, t)
  {
    match t
    case MaterializationEviction(id) =>
      UnheldUnguarded(c, MaterializationTarget(id), mgr);
      assert MaterializationEvictable(c, Some(mgr), MaterializationRow(c.materializations, id).value);
    case EntryEviction(id) =>
      var e := EntryRow(c.entries, id).value;
      UnheldUnguarded(c, BlobTarget(e.blobId), mgr);
      assert EntryEvictable(c, Some(mgr), true, e);
    case BlobEviction(id) =>
      UnheldUnguarded(c, BlobTarget(id), mgr);
      assert BlobEvictable(c, Some(mgr), BlobRow(c.blobs, id).value);
  }

  lemma BeginMaterialization(d: Disk, c: Snapshot, id: string, at: Time, sizes: Sizes)
    requires Consistent(World(d, c), sizes) && BeginEviction(c, MaterializationEviction(id), at).Some?
    ensures var (r, k) := BeginEviction(c, MaterializationEviction(id), at).value;
      Consistent(World(d, r), sizes) && Pending(r, k)
  {
    var m := MaterializationRow(c.materializations, id).value;
    MarkMaterializationMild(c, id);
    MarkMaterializationPending(c, m);
    hide Mild, Pending;
    MildKeeps(d, c, c.(materializations := SetMaterializationState(c.materializations, id, Deleting)), sizes);
  }

  lemma MarkMaterializationPending(c: Snapshot, m: Materialization)
    requires m in c.materializations
    ensures Pending(c.(materializations := SetMaterializationState(c.materializations, m.id, Deleting)),
      MaterializationClaim(m.id, m.currentBlobId, m.size))
  {
    var i :| 0 <= i < |c.materializations| && c.materializations[i] == m;
    var marked := SetMaterializationState(c.materializations, m.id, Deleting);
    assert marked[i] in marked;
  }

  lemma BeginBlob(d: Disk, c: Snapshot, id: string, at: Time, sizes: Sizes)
    requires Consistent(World(d, c), sizes) && BeginEviction(c, BlobEviction(id), at).Some?
    ensures var (r, k) := BeginEviction(c, BlobEviction(id), at).value; Consistent(World(d, r), sizes) && Pending(r, k)
  {
    MarkDeletingKeeps(d, c, id, sizes);
    var b := BlobRow(c.blobs, id).value;
    var x := MarkRowForward(c, id, b);
  }

  lemma BeginEntry(d: Disk, c: Snapshot, id: string, at: Time, sizes: Sizes)
    requires Consistent(World(d, c), sizes) && BeginEviction(c, EntryEviction(id), at).Some?
    ensures var (r, k) := BeginEviction(c, EntryEviction(id), at).value; Consistent(World(d, r), sizes) && Pending(r, k)
  {
    var (r, k) := BeginEviction(c, EntryEviction(id), at).value;
    var e := EntryRow(c.entries, id).value;
    var b := BlobRow(c.blobs, e.blobId).value;
    if EntryCount(c.entries, e.blobId) == 1 {
      CountOneUnique(c.entries, e.blobId, e);
      MarkDeletingKeeps(d, c, e.blobId, sizes);
      var x := MarkRowForward(c, e.blobId, b);
    } else {
      var claim := Reference(ClaimReferenceId(id), EvictionClaim(id), BlobTarget(e.blobId), at);
      ClaimSharedKeeps(d, c, e, claim, sizes);
      assert claim in r.references;
    }
  }

  /** Finalizing keeps the stores consistent and removes at least one row. */
  lemma FinalizeKeeps(d: Disk, c: Snapshot, k: Claim, sizes: Sizes)
    requires Consistent(World(d, c), sizes) && FinalizeEviction(c, k).Some?
    ensures Consistent(World(d, FinalizeEviction(c, k).value), sizes)
  {
    match k
    case MaterializationClaim(id, _, _) =>
      LeasesShrink(c.leases, MaterializationTarget(id));
      RemoveMaterializationKeeps(d, c, id, KeepLeases(c.leases, MaterializationTarget(id)), sizes);
    case BlobClaim(id, _) =>
      LeasesShrink(c.leases, BlobTarget(id));
      RemoveBlobKeeps(d, c, id, KeepLeases(c.leases, BlobTarget(id)), sizes);
    case EntryClaim(id, blobId, _, shared) =>
      if shared { FinalizeShared(d, c, k, sizes); } else { FinalizeSole(d, c, k, sizes); }
  }

  lemma FinalizeShared(d: Disk, c: Snapshot, k: Claim, sizes: Sizes)
    requires Consistent(World(d, c), sizes) && FinalizeEviction(c, k).Some? && k.EntryClaim? && k.shared
    ensures Consistent(World(d, FinalizeEviction(c, k).value), sizes)
  {
    ClaimDropped(c.references, k.entryId, k.blobId);
    var e := EntryRow(c.entries, k.entryId).value;
    forall x | x in c.references && x.owner == EvictionClaim(k.entryId) ensures x.target == BlobTarget(k.blobId) {
      assert ClaimStands(c, x);
      var f :| f in c.entries && f.id == x.owner.entryId && x.target == BlobTarget(f.blobId) && !Materialized(c, f.id)
        && PublishedBlob(c, f.blobId);
      EntryUnique(c, e, f);
    }
    RemoveEntryKeeps(d, c, k.entryId, DropClaim(c.references, k.entryId, k.blobId), sizes);
  }

  lemma FinalizeSole(d: Disk, c: Snapshot, k: Claim, sizes: Sizes)
    requires Consistent(World(d, c), sizes) && FinalizeEviction(c, k).Some? && k.EntryClaim? && !k.shared
    ensures Consistent(World(d, FinalizeEviction(c, k).value), sizes)
  {
    var e := EntryRow(c.entries, k.entryId).value;
    forall x | x in c.references ensures x.owner != EvictionClaim(k.entryId) {
      if x.owner == EvictionClaim(k.entryId) { NoClaimOnDeleting(c, x, e, sizes); }
    }
    RemoveEntryKeeps(d, c, k.entryId, c.references, sizes);
    var mid := c.(entries := Without(c.entries, EntryKey, k.entryId));
    assert mid == c.(entries := Without(c.entries, EntryKey, k.entryId), references := c.references);
    LeasesShrink(mid.leases, BlobTarget(k.blobId));
    RemoveBlobKeeps(d, mid, k.blobId, KeepLeases(mid.leases, BlobTarget(k.blobId)), sizes);
  }

  lemma NoClaimOnDeleting(c: Snapshot, x: Reference, e: Entry, sizes: Sizes)
    requires TidyCatalog(c, sizes) && x in c.references && e in c.entries && DeletingBlob(c, e.blobId)
    ensures x.owner != EvictionClaim(e.id)
  {
    if x.owner == EvictionClaim(e.id) {
      assert ClaimStands(c, x);
      var f :| f in c.entries && f.id == x.owner.entryId && x.target == BlobTarget(f.blobId) && !Materialized(c, f.id)
        && PublishedBlob(c, f.blobId);
      EntryUnique(c, e, f);
      PublishedNotDeleting(c, f.blobId);
    }
  }

  // ----- When a pending claim can be finalized -----

  ghost predicate ClaimedPinned(c: Snapshot, k: Claim) {
    k.EntryClaim? && k.shared && exists e | e in c.entries :: e.id == k.entryId && e.pinned
  }

  /** Finalizing a pending claim is refused in one case only: a shared claim
      whose entry has been published again as pinned. */
  lemma FinalizeExact(c: Snapshot, k: Claim, sizes: Sizes)
    requires TidyCatalog(c, sizes) && Pending(c, k)
    ensures FinalizeEviction(c, k).Some? <==> !ClaimedPinned(c, k)
  {
    match k
    case MaterializationClaim(id, contentId, size) =>
      var m :| m in c.materializations && m.id == id && m.state == Deleting && m.currentBlobId == contentId
        && m.size == size;
      KeyInjective(c.materializations, MaterializationKey, m, MaterializationRow(c.materializations, id).value);
      LeasesShrink(c.leases, MaterializationTarget(id));
    case BlobClaim(id, size) => FinalizeBlobExact(c, id, size, sizes);
    case EntryClaim(id, blobId, size, shared) =>
      var e :| e in c.entries && e.id == id && e.blobId == blobId;
      EntryUnique(c, e, EntryRow(c.entries, id).value);
      if shared { SharedFinalizeExact(c, k, e, sizes); } else { SoleFinalizes(c, k, e, sizes); }
  }

  lemma FinalizeBlobExact(c: Snapshot, id: string, size: Int64, sizes: Sizes)
    requires TidyCatalog(c, sizes) && (forall e | e in c.entries :: e.blobId != id)
    requires exists b | b in c.blobs :: b.id == id && b.size == size && b.state == BlobDeleting
    ensures FinalizeBlob(c, id, size).Some?
  {
    var b :| b in c.blobs && b.id == id && b.size == size && b.state == BlobDeleting;
    RowUnique(c, b, BlobRow(c.blobs, id).value);
    assert Unheld(c, id);
    LeasesShrink(c.leases, BlobTarget(id));
  }

  lemma SharedFinalizeExact(c: Snapshot, k: Claim, e: Entry, sizes: Sizes)
    requires TidyCatalog(c, sizes) && Pending(c, k) && k.EntryClaim? && k.shared
    requires e in c.entries && e.id == k.entryId && e.blobId == k.blobId && EntryRow(c.entries, k.entryId) == Some(e)
    ensures FinalizeEviction(c, k).Some? <==> !ClaimedPinned(c, k)
  {
    var x :| x in c.references && x.owner == EvictionClaim(k.entryId) && x.target == BlobTarget(k.blobId);
    assert ClaimStands(c, x);
    forall f | f in c.entries && f.id == k.entryId ensures f == e { EntryUnique(c, e, f); }
  }

  lemma SoleFinalizes(c: Snapshot, k: Claim, e: Entry, sizes: Sizes)
    requires TidyCatalog(c, sizes) && Pending(c, k) && k.EntryClaim? && !k.shared
    requires e in c.entries && e.id == k.entryId && e.blobId == k.blobId && EntryRow(c.entries, k.entryId) == Some(e)
    ensures FinalizeEviction(c, k).Some?
  {
    var b :| b in c.blobs && b.id == k.blobId && b.size == k.blobSize && b.state == BlobDeleting;
    assert Unheld(c, k.blobId) && DeletingBlob(c, k.blobId);
    var mid := c.(entries := Without(c.entries, EntryKey, k.entryId));
    WithoutMembers(c.entries, EntryKey, k.entryId);
    RowUnique(c, b, BlobRow(c.blobs, k.blobId).value);
    LeasesShrink(mid.leases, BlobTarget(k.blobId));
  }

  ghost function Rows(c: Snapshot): nat { |c.blobs| + |c.entries| + |c.materializations| }

  lemma FinalizeRemovesRows(c: Snapshot, k: Claim)
    requires WellLinked(c) && FinalizeEviction(c, k).Some?
    ensures Rows(FinalizeEviction(c, k).value) < Rows(c)
  {
    match k
    case MaterializationClaim(id, _, _) =>
      WithoutDistinct(c.materializations, MaterializationKey, id);
      assert MaterializationKey(MaterializationRow(c.materializations, id).value) in MaterializationIds(c);
    case BlobClaim(id, _) =>
      WithoutDistinct(c.blobs, BlobKey, id);
      assert BlobKey(BlobRow(c.blobs, id).value) in BlobIds(c);
    case EntryClaim(id, blobId, _, _) =>
      WithoutDistinct(c.entries, EntryKey, id);
      assert EntryKey(EntryRow(c.entries, id).value) in EntryIds(c);
      WithoutDistinct(c.blobs, BlobKey, blobId);
  }

  // ----- Publishing -----

  lemma TouchRow(blobs: seq<Blob>, id: string, at: Time, x: Blob) returns (b: Blob)
    requires x in TouchBlobs(blobs, id, at)
    ensures b in blobs && x == b.(lastAccessAt := x.lastAccessAt)
  {
    var i :| 0 <= i < |TouchBlobs(blobs, id, at)| && TouchBlobs(blobs, id, at)[i] == x;
    b := blobs[i];
  }

  lemma TouchRowForward(blobs: seq<Blob>, id: string, at: Time, b: Blob) returns (x: Blob)
    requires b in blobs
    ensures x in TouchBlobs(blobs, id, at) && x == b.(lastAccessAt := x.lastAccessAt)
  {
    var i :| 0 <= i < |blobs| && blobs[i] == b;
    x := TouchBlobs(blobs, id, at)[i];
  }

  /** The same blobs in the same states, possibly with one published blob more. */
  ghost predicate BlobsGrow(c: Snapshot, r: Snapshot, id: string, sizes: Sizes) {
    && r == c.(blobs := r.blobs)
    && Distinct(r.blobs, BlobKey)
    && (forall x | x in r.blobs :: 0 <= x.size && x.size == sizes(x.id))
    && (forall x :: PublishedBlob(r, x) <==> PublishedBlob(c, x) || x == id)
    && (forall x :: DeletingBlob(r, x) <==> DeletingBlob(c, x))
    && BlobIds(r) == BlobIds(c) + {id}
  }

  lemma TouchGrows(c: Snapshot, id: string, at: Time, sizes: Sizes)
    requires TidyCatalog(c, sizes) && PublishedBlob(c, id)
    ensures BlobsGrow(c, c.(blobs := TouchBlobs(c.blobs, id, at)), id, sizes)
  {
    var r := c.(blobs := TouchBlobs(c.blobs, id, at));
    assert forall i | 0 <= i < |r.blobs| :: BlobKey(r.blobs[i]) == BlobKey(c.blobs[i]);
    assert Distinct(r.blobs, BlobKey);
    hide TouchBlobs, WellLinked, Distinct;
    forall x | x in r.blobs ensures x.size == sizes(x.id) && 0 <= x.size && BlobKey(x) in BlobIds(c) &&
      (x.state == BlobPublished ==> PublishedBlob(c, x.id)) && (x.state == BlobDeleting ==> DeletingBlob(c, x.id))
    {
      var b := TouchRow(c.blobs, id, at, x);
      assert BlobKey(b) in BlobIds(c);
      LinkedSizes(c, b);
    }
    forall b | b in c.blobs ensures BlobKey(b) in BlobIds(r) &&
      (b.state == BlobPublished ==> PublishedBlob(r, b.id)) && (b.state == BlobDeleting ==> DeletingBlob(r, b.id))
    {
      var x := TouchRowForward(c.blobs, id, at, b);
      assert BlobKey(x) in BlobIds(r);
    }
    var p :| p in c.blobs && p.id == id && p.state == BlobPublished;
    assert BlobKey(p) in BlobIds(c);
  }

  lemma LinkedSizes(c: Snapshot, b: Blob)
    requires WellLinked(c) && b in c.blobs
    ensures 0 <= b.size
  {
  }

  lemma AppendGrows(c: Snapshot, blob: Blob, sizes: Sizes)
    requires TidyCatalog(c, sizes) && (forall b | b in c.blobs :: b.id != blob.id)
    requires blob.state == BlobPublished && 0 <= blob.size == sizes(blob.id)
    ensures BlobsGrow(c, c.(blobs := c.blobs + [blob]), blob.id, sizes)
  {
    var r := c.(blobs := c.blobs + [blob]);
    Snoc(c.blobs, BlobKey, blob);
    assert blob in r.blobs && forall b | b in c.blobs :: b in r.blobs;
  }

  lemma GrowKeeps(d: Disk, c: Snapshot, r: Snapshot, id: string, sizes: Sizes)
    requires Consistent(World(d, c), sizes) && BlobsGrow(c, r, id, sizes) && id in d.blobs
    ensures Consistent(World(d, r), sizes)
  {
    assert WellLinked(r);
    hide WellLinked, PublishedBlob, DeletingBlob;
    forall b | b in r.blobs
      ensures (b.state == BlobDeleting ==> Unheld(r, b.id)) && (b.state == BlobPublished ==> b.id in d.blobs)
    {
      BlobState(r, b);
      if b.state == BlobDeleting { DeletingUnheld(c, b.id, sizes); SameHolds(c, r, b.id); }
        else if b.id != id { PublishedOnDisk(d, c, b.id); }
    }
    forall x | x in r.references && x.owner.EvictionClaim? ensures ClaimStands(r, x) {
      var e :| e in c.entries && e.id == x.owner.entryId && x.target == BlobTarget(e.blobId) && !Materialized(c, e.id)
        && PublishedBlob(c, e.blobId);
    }
    forall e | e in r.entries ensures EntryBacked(d, r, e) { assert EntryBacked(d, c, e); }
    forall m | m in r.materializations ensures SourceMatches(r, m) { assert SourceMatches(c, m); }
    forall m | m in r.materializations && m.state == Deleting ensures Unused(r, m.id) { assert Unused(c, m.id); }
  }

  lemma BlobState(c: Snapshot, b: Blob)
    requires b in c.blobs
    ensures if b.state == BlobPublished then PublishedBlob(c, b.id) else DeletingBlob(c, b.id)
  {
  }

  lemma DeletingUnheld(c: Snapshot, id: string, sizes: Sizes)
    requires TidyCatalog(c, sizes) && DeletingBlob(c, id)
    ensures Unheld(c, id)
  {
  }

  lemma PublishedOnDisk(d: Disk, c: Snapshot, id: string)
    requires Backed(d, c) && PublishedBlob(c, id)
    ensures id in d.blobs
  {
  }

  ghost predicate SameButState(e: Entry, f: Entry) {
    f == e.(freshness := f.freshness, policy := f.policy, pinned := f.pinned, lastAccessAt := f.lastAccessAt)
  }

  /** The same entries, one of them possibly new or refreshed, on a published blob. */
  ghost predicate EntriesGrow(c: Snapshot, r: Snapshot, entry: Entry) {
    && r == c.(entries := r.entries)
    && Distinct(r.entries, EntryKey)
    && (forall e | e in c.entries :: e in r.entries || exists f | f in r.entries :: SameButState(e, f))
    && (forall f | f in r.entries :: f in c.entries || (f.id == entry.id && f.blobId == entry.blobId))
  }

  lemma RefreshGrows(c: Snapshot, entry: Entry)
    requires WellLinked(c) && (forall e | e in c.entries && e.id == entry.id :: e.blobId == entry.blobId)
    ensures EntriesGrow(c, c.(entries := RefreshEntries(c.entries, entry)), entry)
  {
    var r := c.(entries := RefreshEntries(c.entries, entry));
    assert forall i | 0 <= i < |r.entries| :: EntryKey(r.entries[i]) == EntryKey(c.entries[i]);
    forall e | e in c.entries ensures exists f | f in r.entries :: SameButState(e, f) {
      var i :| 0 <= i < |c.entries| && c.entries[i] == e;
      assert r.entries[i] in r.entries;
    }
    forall f | f in r.entries ensures f in c.entries || (f.id == entry.id && f.blobId == entry.blobId) {
      var i :| 0 <= i < |r.entries| && r.entries[i] == f;
      assert c.entries[i] in c.entries;
    }
  }

  lemma AppendEntryGrows(c: Snapshot, entry: Entry)
    requires WellLinked(c) && (forall e | e in c.entries :: e.id != entry.id)
    ensures EntriesGrow(c, c.(entries := c.entries + [entry]), entry)
  {
    Snoc(c.entries, EntryKey, entry);
  }

  lemma KeptEntry(c: Snapshot, r: Snapshot, entry: Entry, e: Entry) returns (f: Entry)
    requires EntriesGrow(c, r, entry) && e in c.entries
    ensures f in r.entries && SameButState(e, f)
  {
    if e in r.entries { f := e; } else { f :| f in r.entries && SameButState(e, f); }
  }

  lemma GrowLinked(c: Snapshot, r: Snapshot, entry: Entry)
    requires WellLinked(c) && EntriesGrow(c, r, entry) && PublishedBlob(c, entry.blobId)
    ensures WellLinked(r)
  {
    var b :| b in c.blobs && b.id == entry.blobId;
    assert BlobKey(b) in BlobIds(c) && BlobIds(r) == BlobIds(c);
    forall e | e in c.entries ensures EntryKey(e) in EntryIds(r) {
      var f := KeptEntry(c, r, entry, e);
      assert EntryKey(f) in EntryIds(r);
    }
  }

  lemma GrowEntryKeeps(d: Disk, c: Snapshot, r: Snapshot, entry: Entry, sizes: Sizes)
    requires Consistent(World(d, c), sizes) && EntriesGrow(c, r, entry) && PublishedBlob(c, entry.blobId)
    requires HasManifest(d, entry.id) && Names(d.entries[entry.id].children[MANIFEST], entry.blobId)
    requires entry.blobId in d.blobs
    ensures Consistent(World(d, r), sizes)
  {
    GrowLinked(c, r, entry);
    PublishedNotDeleting(c, entry.blobId);
    assert r == c.(entries := r.entries);
    hide WellLinked, EntriesGrow, HasManifest, Names;
    forall b | b in r.blobs && b.state == BlobDeleting ensures Unheld(r, b.id) {
      assert Unheld(c, b.id);
      forall f | f in r.entries && f.blobId == b.id ensures f in c.entries { GrownEntry(c, r, entry, f); }
    }
    forall x | x in r.references && x.owner.EvictionClaim? ensures ClaimStands(r, x) {
      assert ClaimStands(c, x);
      var e :| e in c.entries && e.id == x.owner.entryId && x.target == BlobTarget(e.blobId) && !Materialized(c, e.id)
        && PublishedBlob(c, e.blobId);
      var f := KeptEntry(c, r, entry, e);
      assert PublishedBlob(r, f.blobId) && !Materialized(r, f.id);
    }
    forall m | m in r.materializations ensures SourceMatches(r, m) {
      assert SourceMatches(c, m);
      var e :| e in c.entries && e.id == m.entryId && e.blobId == m.baselineBlobId;
      var f := KeptEntry(c, r, entry, e);
    }
    forall f | f in r.entries ensures EntryBacked(d, r, f) {
      GrownEntry(c, r, entry, f);
      if f in c.entries { assert EntryBacked(d, c, f); assert Doomed(c, f) ==> Doomed(r, f); }
    }
    forall m | m in r.materializations && m.state == Deleting ensures Unused(r, m.id) { assert Unused(c, m.id); }
  }

  lemma GrownEntry(c: Snapshot, r: Snapshot, entry: Entry, f: Entry)
    requires EntriesGrow(c, r, entry) && f in r.entries
    ensures f in c.entries || (f.id == entry.id && f.blobId == entry.blobId)
  {
  }

  /** Publishing is safe once the blob and the entry's manifest are on disk. */
  lemma PublishKeeps(d: Disk, c: Snapshot, blob: Blob, entry: Entry, sizes: Sizes)
    requires Consistent(World(d, c), sizes) && Publish(c, blob, entry).Some?
    requires blob.size == sizes(blob.id) && blob.id in d.blobs
    requires HasManifest(d, entry.id) && Names(d.entries[entry.id].children[MANIFEST], blob.id)
    ensures Consistent(World(d, Publish(c, blob, entry).value), sizes)
  {
    var b := BlobRow(c.blobs, blob.id);
    var e := EntryRow(c.entries, entry.id);
    if b.Some? { TouchGrows(c, blob.id, blob.lastAccessAt, sizes); } else { AppendGrows(c, blob, sizes); }
    var mid := c.(blobs := if b.Some? then TouchBlobs(c.blobs, blob.id, blob.lastAccessAt) else c.blobs + [blob]);
    assert PublishedBlob(mid, blob.id);
    GrowKeeps(d, c, mid, blob.id, sizes);
    var r := mid.(entries := if e.Some? then RefreshEntries(mid.entries, entry) else mid.entries + [entry]);
    if e.Some? {
      forall x | x in mid.entries && x.id == entry.id ensures x.blobId == entry.blobId { EntryUnique(mid, x, e.value); }
      RefreshGrows(mid, entry);
    } else {
      AppendEntryGrows(mid, entry);
    }
    GrowEntryKeeps(d, mid, r, entry, sizes);
    assert r == Publish(c, blob, entry).value;
  }

  // ----- Handing out a materialization -----

  /** What handing out materialization `m` of entry `e` changes. */
  ghost predicate HandsOut(c: Snapshot, r: Snapshot, m: Materialization, e: Entry) {
    && r.blobs == c.blobs && r.entries == c.entries && r.materializations == c.materializations + [m]
    && e in c.entries && e.id == m.entryId && e.blobId == m.baselineBlobId && PublishedBlob(c, e.blobId)
      && !Claimed(c, e.id, e.blobId)
    && m.state != Deleting && (forall n | n in c.materializations :: n.id != m.id)
    && (forall x | x in r.references && x.owner.EvictionClaim? :: x in c.references)
    && (forall t :: Referenced(r, t) ==> Referenced(c, t) || t == MaterializationTarget(m.id))
    && (forall t :: Leased(r, t) ==> Leased(c, t) || t == MaterializationTarget(m.id))
    && (forall id :: Materialized(r, id) ==> Materialized(c, id) || id == e.id)
    && (forall id :: IsBaseline(r, id) ==> IsBaseline(c, id) || id == e.blobId)
    && (forall id :: PublishedBlob(r, id) == PublishedBlob(c, id) && DeletingBlob(r, id) == DeletingBlob(c, id))
    && (forall id, b :: Claimed(r, id, b) == Claimed(c, id, b))
  }

  lemma HandoffHandsOut(c: Snapshot, m: Materialization, reference: Reference, lease: Lease)
    requires PrepareHandoff(c, m, reference, lease).Some?
    ensures HandsOut(c, PrepareHandoff(c, m, reference, lease).value, m, EntryRow(c.entries, m.entryId).value)
  {
    var r := PrepareHandoff(c, m, reference, lease).value;
    assert forall x | x in c.references :: x in r.references;
  }

  /** A granted handoff stores its three records next to all others, and from then on
      the materialization cannot be claimed. */
  lemma HandoffStores(c: Snapshot, m: Materialization, reference: Reference, lease: Lease, at: Time)
    requires PrepareHandoff(c, m, reference, lease).Some?
    ensures var r := PrepareHandoff(c, m, reference, lease).value;
      && multiset(r.materializations) == multiset(c.materializations) + multiset{m}
      && multiset(r.references) == multiset(c.references) + multiset{reference}
      && multiset(r.leases) == multiset(c.leases) + multiset{lease}
      && r.blobs == c.blobs && r.entries == c.entries
      && BeginEviction(r, MaterializationEviction(m.id), at).None?
  {
    var r := PrepareHandoff(c, m, reference, lease).value;
    assert r.references[|c.references|] == reference && reference in r.references;
    assert Referenced(r, MaterializationTarget(m.id));
  }

  lemma HandoffLinked(c: Snapshot, m: Materialization, reference: Reference, lease: Lease)
    requires WellLinked(c) && PrepareHandoff(c, m, reference, lease).Some?
    ensures WellLinked(PrepareHandoff(c, m, reference, lease).value)
  {
    var e := EntryRow(c.entries, m.entryId).value;
    assert EntryKey(e) in EntryIds(c);
    Snoc(c.materializations, MaterializationKey, m);
  }

  lemma HandoffUnheld(c: Snapshot, r: Snapshot, m: Materialization, e: Entry, id: string)
    requires HandsOut(c, r, m, e) && WellLinked(c) && Unheld(c, id) && id != e.blobId
    ensures Unheld(r, id)
  {
    hide Referenced, Leased, Materialized, IsBaseline, PublishedBlob, DeletingBlob, Claimed, WellLinked;
    forall f | f in r.entries && f.blobId == id ensures !Materialized(r, f.id) {
      if f.id == e.id { EntryUnique(c, f, e); }
    }
  }

  lemma HandoffClaim(c: Snapshot, r: Snapshot, m: Materialization, e: Entry, x: Reference)
    requires HandsOut(c, r, m, e) && WellLinked(c) && x in c.references && x.owner.EvictionClaim? && ClaimStands(c, x)
    ensures ClaimStands(r, x)
  {
    hide Referenced, Leased, Materialized, IsBaseline, PublishedBlob, DeletingBlob, WellLinked;
    var f :| f in c.entries && f.id == x.owner.entryId && x.target == BlobTarget(f.blobId) && !Materialized(c, f.id)
      && PublishedBlob(c, f.blobId);
    if f.id == e.id { EntryUnique(c, f, e); }
  }

  lemma HandsOutKeeps(d: Disk, c: Snapshot, r: Snapshot, m: Materialization, e: Entry, sizes: Sizes)
    requires Consistent(World(d, c), sizes) && HandsOut(c, r, m, e) && WellLinked(r)
    ensures Consistent(World(d, r), sizes)
  {
    PublishedNotDeleting(c, e.blobId);
    hide WellLinked, Referenced, Leased, Materialized, IsBaseline, PublishedBlob, DeletingBlob, Claimed, Unheld,
      ClaimStands, TidyDisk;
    forall b | b in r.blobs && b.state == BlobDeleting ensures Unheld(r, b.id) { HandoffUnheld(c, r, m, e, b.id); }
    forall x | x in r.references && x.owner.EvictionClaim? ensures ClaimStands(r, x) { HandoffClaim(c, r, m, e, x); }
    forall n | n in r.materializations ensures SourceMatches(r, n) {
      if n in c.materializations { assert SourceMatches(c, n); }
    }
    forall f | f in r.entries ensures EntryBacked(d, r, f) { assert EntryBacked(d, c, f); }
    forall n | n in r.materializations && n.state == Deleting ensures Unused(r, n.id) { assert Unused(c, n.id); }
  }

  lemma HandoffKeeps(d: Disk, c: Snapshot, m: Materialization, reference: Reference, lease: Lease, sizes: Sizes)
    requires Consistent(World(d, c), sizes) && PrepareHandoff(c, m, reference, lease).Some?
    ensures Consistent(World(d, PrepareHandoff(c, m, reference, lease).value), sizes)
  {
    HandoffHandsOut(c, m, reference, lease);
    HandoffLinked(c, m, reference, lease);
    hide HandsOut, WellLinked;
    HandsOutKeeps(d, c, PrepareHandoff(c, m, reference, lease).value, m, EntryRow(c.entries, m.entryId).value, sizes);
  }
}
