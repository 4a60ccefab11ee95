/** More pending claims than a recovery takes: the one way a claim can be lost. */
module CacheCrowding {
  import opened Wrappers
  import opened Keyed
  import opened CacheRecords
  import opened CacheEviction
  import CachePlanner
  import opened CacheAdmission
  import opened CacheCatalog
  import opened CacheDeletion
  import opened CacheStores
  import opened CacheTransactions
  import opened CacheSteps
  import opened CacheRecovery
  import opened CacheManager

  /** Publishing an entry as pinned while a shared claim on it is still pending
      leaves a claim that can no longer be finalized. */
  lemma PinnedPublishBlocksClaim(c: Snapshot, blob: Blob, entry: Entry, k: Claim, sizes: Sizes)
    requires TidyCatalog(c, sizes) && Publish(c, blob, entry).Some? && TidyCatalog(Publish(c, blob, entry).value, sizes)
    requires Pending(c, k) && k.EntryClaim? && k.shared && k.entryId == entry.id && entry.pinned
    ensures Pending(Publish(c, blob, entry).value, k) && ClaimedPinned(Publish(c, blob, entry).value, k)
    ensures FinalizeEviction(Publish(c, blob, entry).value, k).None?
  {
    PublishKeepsClaim(c, blob, entry, k);
    hide Publish, TidyCatalog;
    FinalizeExact(Publish(c, blob, entry).value, k, sizes);
  }

  lemma PublishKeepsClaim(c: Snapshot, blob: Blob, entry: Entry, k: Claim)
    requires Publish(c, blob, entry).Some? && Pending(c, k) && k.EntryClaim? && k.shared && k.entryId == entry.id
    requires entry.pinned
    ensures Pending(Publish(c, blob, entry).value, k) && ClaimedPinned(Publish(c, blob, entry).value, k)
  {
    var r := Publish(c, blob, entry).value;
    assert r.references == c.references;
    var e :| e in c.entries && e.id == entry.id && e.blobId == k.blobId;
    var b :| b in c.blobs && b.id == k.blobId && b.size == k.blobSize;
    hide Publish;
    var f := EntryPublished(c, blob, entry, e);
    var x := BlobPublishedToo(c, blob, entry, b);
    assert Claimed(r, k.entryId, k.blobId);
  }

  lemma EntryPublished(c: Snapshot, blob: Blob, entry: Entry, e: Entry) returns (f: Entry)
    requires Publish(c, blob, entry).Some? && e in c.entries && e.id == entry.id
    ensures f in Publish(c, blob, entry).value.entries && f.id == e.id && f.blobId == e.blobId
    ensures f.pinned == entry.pinned
  {
    hide BlobRow, TouchBlobs;
    var i :| 0 <= i < |c.entries| && c.entries[i] == e;
    f := Publish(c, blob, entry).value.entries[i];
  }

  lemma BlobPublishedToo(c: Snapshot, blob: Blob, entry: Entry, b: Blob) returns (x: Blob)
    requires Publish(c, blob, entry).Some? && b in c.blobs
    ensures x in Publish(c, blob, entry).value.blobs && x.id == b.id && x.size == b.size && x.state == b.state
  {
    hide EntryRow, RefreshEntries;
    var i :| 0 <= i < |c.blobs| && c.blobs[i] == b;
    x := Publish(c, blob, entry).value.blobs[i];
  }

  // ----- Working off all claims but one -----

  ghost predicate SharedClaims(claims: seq<Claim>) { forall k | k in claims :: k.EntryClaim? && k.shared }

  /** Shared claims on different entries, none of them pinned, in a world the
      manager accepts. */
  ghost predicate Ready(w: World, claims: seq<Claim>, sizes: Sizes) {
    && Consistent(w, sizes) && ValidSnapshot(w.catalog)
    && SharedClaims(claims) && DistinctSubjects(claims)
    && (forall k | k in claims :: Pending(w.catalog, k) && !ClaimedPinned(w.catalog, k))
  }

  /** Carrying out a shared claim: the entry's directory goes, then its row. */
  ghost function CarryOut(w: World, k: Claim): Option<World>
    requires k.EntryClaim?
  {
    var r := FinalizeEviction(w.catalog, k);
    if r.None? then None else Some(World(WithEntry(w.disk, k.entryId, Absent), r.value))
  }

  ghost function CarryOutAll(w: World, claims: seq<Claim>): Option<World>
    requires SharedClaims(claims)
    decreases |claims|
  {
    if claims == [] then Some(w)
    else
      var v := CarryOut(w, claims[0]);
      if v.None? then None else CarryOutAll(v.value, claims[1..])
  }

  lemma TidyAfter(w: World, sizes: Sizes)
    requires Consistent(w, sizes)
    ensures TidyCatalog(w.catalog, sizes) && WellLinked(w.catalog)
  {
  }

  /** A claimed entry's directory may go. */
  lemma DirectoryGoes(w: World, k: Claim, sizes: Sizes)
    requires Consistent(w, sizes) && Pending(w.catalog, k) && k.EntryClaim?
    ensures Consistent(World(WithEntry(w.disk, k.entryId, Absent), w.catalog), sizes)
  {
    TidyAfter(w, sizes);
    PendingDooms(w.catalog, k, sizes);
    hide Consistent, TidyCatalog, Doomed;
    var d, id := w.disk, k.entryId;
    if HasManifest(d, id) {
      DropManifestKeeps(d, w.catalog, id, sizes);
      var bare := WithEntry(d, id, Present(true, map[]));
      EmptyDirectoryKeeps(bare, w.catalog, id, Absent, sizes);
      assert bare.entries - {id} == d.entries - {id};
      assert WithEntry(bare, id, Absent) == WithEntry(d, id, Absent);
    } else {
      EmptyDirectoryKeeps(d, w.catalog, id, Absent, sizes);
    }
  }

  lemma {:induction false} DropClaimDistinct(references: seq<Reference>, entryId: string, blobId: string)
    requires Distinct(references, ReferenceKey)
    ensures Distinct(DropClaim(references, entryId, blobId), ReferenceKey)
  {
    if references != [] {
      var init, last := references[..|references| - 1], references[|references| - 1];
      assert forall i | 0 <= i < |init| :: init[i] == references[i];
      DropClaimDistinct(init, entryId, blobId);
      ClaimDropped(init, entryId, blobId);
      var rest := DropClaim(init, entryId, blobId);
      forall i | 0 <= i < |rest| ensures ReferenceKey(rest[i]) != ReferenceKey(last) {
        assert rest[i] in init;
        var j :| 0 <= j < |init| && init[j] == rest[i];
      }
    }
  }

  /** Finalizing a shared claim leaves a valid snapshot valid. */
  lemma FinalizeValid(c: Snapshot, k: Claim)
    requires ValidSnapshot(c) && k.EntryClaim? && k.shared && FinalizeEviction(c, k).Some?
    requires WellLinked(FinalizeEviction(c, k).value)
    ensures ValidSnapshot(FinalizeEviction(c, k).value)
    ensures FinalizeEviction(c, k).value.blobs == c.blobs
    ensures forall e | e in c.entries && e.id != k.entryId :: e in FinalizeEviction(c, k).value.entries
  {
    var r := FinalizeEviction(c, k).value;
    WithoutMembers(c.entries, EntryKey, k.entryId);
    ClaimDropped(c.references, k.entryId, k.blobId);
    DropClaimDistinct(c.references, k.entryId, k.blobId);
    assert r.blobs == c.blobs && r.materializations == c.materializations && r.leases == c.leases;
    assert r.entries == Without(c.entries, EntryKey, k.entryId);
    assert r.references == DropClaim(c.references, k.entryId, k.blobId);
    hide FinalizeEviction, ValidBlob, ValidEntry, ValidMaterialization, ValidReference, ValidLease,
      WellLinked, Distinct;
  }

  /** One claim carried out leaves the others ready. */
  lemma OneCarriedOut(w: World, claims: seq<Claim>, sizes: Sizes)
    requires Ready(w, claims, sizes) && claims != []
    ensures CarryOut(w, claims[0]).Some? && Ready(CarryOut(w, claims[0]).value, claims[1..], sizes)
    ensures CarryOut(w, claims[0]).value.catalog.blobs == w.catalog.blobs
    ensures forall e | e in w.catalog.entries && e.id != claims[0].entryId ::
      e in CarryOut(w, claims[0]).value.catalog.entries
  {
    hide Consistent, ValidSnapshot, FinalizeEviction, Pending, ClaimedPinned, SubjectOf, WithEntry;
    assert claims[0] in claims;
    FirstCarriedOut(w, claims[0], sizes);
    forall l | l in claims[1..]
      ensures l in claims && Pending(CarryOut(w, claims[0]).value.catalog, l)
      ensures !ClaimedPinned(CarryOut(w, claims[0]).value.catalog, l)
    {
      var i :| 1 <= i < |claims| && claims[i] == l;
      OtherStays(w, claims[0], l, sizes);
    }
  }

  lemma FirstCarriedOut(w: World, k: Claim, sizes: Sizes)
    requires Consistent(w, sizes) && ValidSnapshot(w.catalog) && k.EntryClaim? && k.shared
    requires Pending(w.catalog, k) && !ClaimedPinned(w.catalog, k)
    ensures CarryOut(w, k).Some? && Consistent(CarryOut(w, k).value, sizes)
    ensures ValidSnapshot(CarryOut(w, k).value.catalog) && CarryOut(w, k).value.catalog.blobs == w.catalog.blobs
    ensures forall e | e in w.catalog.entries && e.id != k.entryId :: e in CarryOut(w, k).value.catalog.entries
  {
    hide Consistent, ValidSnapshot, FinalizeEviction, Pending, ClaimedPinned, TidyCatalog, WithEntry, WellLinked;
    var c := w.catalog;
    TidyAfter(w, sizes);
    FinalizeExact(c, k, sizes);
    DirectoryGoes(w, k, sizes);
    FinalizeKeeps(WithEntry(w.disk, k.entryId, Absent), c, k, sizes);
    TidyAfter(World(WithEntry(w.disk, k.entryId, Absent), FinalizeEviction(c, k).value), sizes);
    FinalizeValid(c, k);
  }

  lemma OtherStays(w: World, k: Claim, l: Claim, sizes: Sizes)
    requires Consistent(w, sizes) && k.EntryClaim? && CarryOut(w, k).Some? && SubjectOf(k) != SubjectOf(l)
    requires Pending(w.catalog, k) && Pending(w.catalog, l) && !ClaimedPinned(w.catalog, l)
    ensures Pending(CarryOut(w, k).value.catalog, l) && !ClaimedPinned(CarryOut(w, k).value.catalog, l)
  {
    hide Consistent, FinalizeEviction, Pending, ClaimedPinned, TidyCatalog, SubjectOf;
    TidyAfter(w, sizes);
    FinalizeIndependent(w.catalog, k, l, sizes);
  }

  /** The last claim's entry, its blob and its manifest are still there. */
  ghost predicate EntryThere(w: World, e: Entry, blob: Blob) {
    e in w.catalog.entries && blob in w.catalog.blobs && blob.id == e.blobId && HasManifest(w.disk, e.id)
  }

  lemma {:induction false} AllCarriedOut(w: World, first: seq<Claim>, last: Claim, e: Entry, blob: Blob, sizes: Sizes)
    requires Ready(w, first + [last], sizes) && EntryThere(w, e, blob) && e.id == last.entryId
    ensures SharedClaims(first) && CarryOutAll(w, first).Some?
    ensures Ready(CarryOutAll(w, first).value, [last], sizes) && EntryThere(CarryOutAll(w, first).value, e, blob)
    decreases |first|
  {
    var all := first + [last];
    FirstsShared(w, first, last, sizes);
    hide Ready, CarryOut, HasManifest, SharedClaims;
    if first == [] {
      assert all == [last];
    } else {
      assert all[0] == first[0] && all[1..] == first[1..] + [last];
      OneCarriedOut(w, all, sizes);
      var v := CarryOut(w, first[0]).value;
      OtherManifest(w, first[0], e.id);
      AllCarriedOut(v, first[1..], last, e, blob, sizes);
    }
  }

  lemma FirstsShared(w: World, first: seq<Claim>, last: Claim, sizes: Sizes)
    requires Ready(w, first + [last], sizes)
    ensures SharedClaims(first) && last.EntryClaim?
    ensures first != [] ==> first[0].EntryClaim? && first[0].entryId != last.entryId
  {
    var all := first + [last];
    assert all[|first|] == last && last in all && forall k | k in first :: k in all;
    if first != [] { assert all[0] == first[0] && SubjectOf(all[0]) != SubjectOf(all[|first|]); }
    hide Pending, ClaimedPinned, Consistent, ValidSnapshot;
  }

  lemma OtherManifest(w: World, k: Claim, id: string)
    requires k.EntryClaim? && CarryOut(w, k).Some? && HasManifest(w.disk, id) && id != k.entryId
    ensures HasManifest(CarryOut(w, k).value.disk, id)
  {
  }

  /** Claims carried out take no other claim along and add none. */
  lemma {:induction false} AllCarriedOutLess(w: World, first: seq<Claim>, last: Claim, sizes: Sizes)
    requires Ready(w, first + [last], sizes) && Covers(w.catalog, first + [last])
    ensures SharedClaims(first) && CarryOutAll(w, first).Some?
    ensures OnlySubject(CarryOutAll(w, first).value.catalog, SubjectOf(last))
    decreases |first|
  {
    var all := first + [last];
    FirstsShared(w, first, last, sizes);
    hide Ready, CarryOut, Covers, OnlySubject, SharedClaims;
    if first == [] {
      assert all == [last];
      OneCovers(w.catalog, last);
    } else {
      assert all[0] == first[0] && all[1..] == first[1..] + [last];
      OneCarriedOut(w, all, sizes);
      CoversRest(w, all, sizes);
      AllCarriedOutLess(CarryOut(w, first[0]).value, first[1..], last, sizes);
    }
  }

  lemma OneCovers(c: Snapshot, last: Claim)
    requires Covers(c, [last])
    ensures OnlySubject(c, SubjectOf(last))
  {
    hide Pending;
    forall k | Pending(c, k) ensures SubjectOf(k) == SubjectOf(last) { assert Listed([last], SubjectOf(k)); }
  }

  lemma CoversRest(w: World, claims: seq<Claim>, sizes: Sizes)
    requires Ready(w, claims, sizes) && claims != [] && Covers(w.catalog, claims)
    requires claims[0].EntryClaim? && CarryOut(w, claims[0]).Some?
    ensures Covers(CarryOut(w, claims[0]).value.catalog, claims[1..])
  {
    var c, k := w.catalog, claims[0];
    assert k in claims;
    TidyAfter(w, sizes);
    var r := FinalizeEviction(c, k).value;
    hide Consistent, ValidSnapshot, FinalizeEviction, Pending, TidyCatalog, ClaimedPinned;
    forall l | Pending(r, l) ensures Listed(claims[1..], SubjectOf(l)) {
      FinalizeLess(c, k, l, sizes);
      assert Listed(claims, SubjectOf(l));
      var m :| m in claims && SubjectOf(m) == SubjectOf(l);
      assert m in claims[1..];
    }
  }

  // ----- The lost claim -----

  /** The last entry, published as pinned: admitted without further eviction, since
      both rows are there, and written next to the claim. */
  lemma PinnedPublishAdmitted(w: World, last: Claim, e: Entry, blob: Blob, limits: Limits, sizes: Sizes)
    requires Ready(w, [last], sizes) && EntryThere(w, e, blob) && e.id == last.entryId
    ensures AdmissionHolds(w.catalog, Admission(Some(blob), Some(e.(pinned := true)), None), limits)
    ensures Publish(w.catalog, blob, e.(pinned := true)).Some?
    ensures Consistent(World(w.disk, Publish(w.catalog, blob, e.(pinned := true)).value), sizes)
  {
    hide Consistent, ValidSnapshot, Pending, ClaimedPinned, PublishedBlob, BlobRow, EntryRow, Admitted,
      WellShaped, CachePlanner.Fits;
    assert last in [last];
    RowsFound(w, last, e, blob, sizes);
    CatalogedAlready(w.catalog, e.(pinned := true), blob, e, limits);
    PublishKeeps(w.disk, w.catalog, blob, e.(pinned := true), sizes);
  }

  lemma CatalogedAlready(c: Snapshot, entry: Entry, blob: Blob, e: Entry, limits: Limits)
    requires e in c.entries && blob in c.blobs && blob.state == BlobPublished && SameSourceIdentity(e, entry)
    requires entry.id == e.id
    ensures AdmissionHolds(c, Admission(Some(blob), Some(entry), None), limits)
  {
    assert BlobKey(blob) in BlobIds(c) && EntryKey(e) in EntryIds(c);
    var a := Admission(Some(blob), Some(entry), None);
    hide CachePlanner.Fits;
    assert WithIncoming(c, a) == c;
  }

  lemma RowsFound(w: World, last: Claim, e: Entry, blob: Blob, sizes: Sizes)
    requires Consistent(w, sizes) && ValidSnapshot(w.catalog) && Pending(w.catalog, last) && last.EntryClaim?
    requires last.shared
    requires EntryThere(w, e, blob) && e.id == last.entryId
    ensures BlobRow(w.catalog.blobs, blob.id) == Some(blob) && EntryRow(w.catalog.entries, e.id) == Some(e)
    ensures blob.state == BlobPublished && blob.size == sizes(blob.id) && 0 <= blob.size && blob.id in w.disk.blobs
    ensures Names(w.disk.entries[e.id].children[MANIFEST], blob.id)
  {
    var c := w.catalog;
    TidyAfter(w, sizes);
    PendingDooms(c, last, sizes);
    SharedIsPublished(c, last, sizes);
    PublishedNotDeleting(c, e.blobId);
    assert EntryBacked(w.disk, c, e);
    EntryUnique(c, EntryRow(c.entries, e.id).value, e);
    RowUnique(c, BlobRow(c.blobs, blob.id).value, blob);
  }

  /** Once the first claims are carried out, the catalog is valid and the entry of
      the last is admitted; after its publication the last claim is pending and
      cannot be finalized. */
  ghost predicate LosesClaim(w: World, first: seq<Claim>, last: Claim, e: Entry, blob: Blob,
        limits: Limits, sizes: Sizes) {
    && SharedClaims(first) && CarryOutAll(w, first).Some?
    && var v := CarryOutAll(w, first).value;
       && Consistent(v, sizes) && ValidSnapshot(v.catalog)
       && AdmissionHolds(v.catalog, Admission(Some(blob), Some(e), None), limits) && Publish(v.catalog, blob, e).Some?
       && var p := Publish(v.catalog, blob, e).value;
          && Consistent(World(v.disk, p), sizes)
          && Pending(p, last) && ClaimedPinned(p, last) && FinalizeEviction(p, last).None?
  }

  /** With one more claim than a recovery takes, the one left over can be lost:
      whichever `n` claims the recovery carries out, the entry of the other can then
      be published as pinned, and its claim is never finalized again. */
  lemma CrowdedRun(w: World, first: seq<Claim>, last: Claim, e: Entry, blob: Blob, limits: Limits, sizes: Sizes)
    requires Ready(w, first + [last], sizes) && EntryThere(w, e, blob) && e.id == last.entryId
    ensures !Few(w.catalog, |first|) && LosesClaim(w, first, last, e.(pinned := true), blob, limits, sizes)
  {
    assert !Few(w.catalog, |first|) by {
      var all := first + [last];
      assert DistinctSubjects(all) && AllPendingIn(w.catalog, all) && |all| == |first| + 1;
    }
    AllCarriedOut(w, first, last, e, blob, sizes);
    var v := CarryOutAll(w, first).value;
    PinnedPublishAdmitted(v, last, e, blob, limits, sizes);
    assert last in [last];
    hide Consistent, ValidSnapshot, FinalizeEviction, Pending, Publish, Few, CarryOutAll, AdmissionHolds, ClaimedPinned;
    TidyAfter(v, sizes);
    TidyAfter(World(v.disk, Publish(v.catalog, blob, e.(pinned := true)).value), sizes);
    PinnedPublishBlocksClaim(v.catalog, blob, e.(pinned := true), last, sizes);
  }

  /** From then on no recovery gets through: if those were all the claims, every
      list of pending claims has one on the pinned entry. */
  lemma LostForGood(w: World, first: seq<Claim>, last: Claim, e: Entry, blob: Blob, sizes: Sizes,
        listed: seq<Claim>, limit: int)
    requires Ready(w, first + [last], sizes) && EntryThere(w, e, blob) && e.id == last.entryId
    requires Covers(w.catalog, first + [last])
    requires SharedClaims(first) && CarryOutAll(w, first).Some?
    requires Publish(CarryOutAll(w, first).value.catalog, blob, e.(pinned := true)).Some?
    requires var p := Publish(CarryOutAll(w, first).value.catalog, blob, e.(pinned := true)).value;
      AllPendingIn(p, listed) && 0 < limit && (|listed| < limit ==> Covers(p, listed))
    ensures var p := Publish(CarryOutAll(w, first).value.catalog, blob, e.(pinned := true)).value;
      exists k | k in listed :: ClaimedPinned(p, k)
  {
    hide CarryOutAll, Covers, Consistent, ValidSnapshot, Publish, Pending, ClaimedPinned, OnlySubject, HasManifest;
    AllCarriedOut(w, first, last, e, blob, sizes);
    var v := CarryOutAll(w, first).value;
    assert last in [last];
    PublishKeepsClaim(v.catalog, blob, e.(pinned := true), last);
    OnlyLastLeft(w, first, last, e, blob, sizes);
    ListsPinned(Publish(v.catalog, blob, e.(pinned := true)).value, last, listed, limit);
  }

  /** If those were all the claims, the lost one is the only one left. */
  lemma OnlyLastLeft(w: World, first: seq<Claim>, last: Claim, e: Entry, blob: Blob, sizes: Sizes)
    requires Ready(w, first + [last], sizes) && EntryThere(w, e, blob) && e.id == last.entryId
    requires Covers(w.catalog, first + [last])
    requires SharedClaims(first) && CarryOutAll(w, first).Some?
    requires Publish(CarryOutAll(w, first).value.catalog, blob, e.(pinned := true)).Some?
    ensures OnlySubject(Publish(CarryOutAll(w, first).value.catalog, blob, e.(pinned := true)).value, SubjectOf(last))
  {
    hide CarryOutAll, Covers, Consistent, ValidSnapshot, Publish, Pending, ClaimedPinned, OnlySubject, HasManifest;
    AllCarriedOut(w, first, last, e, blob, sizes);
    AllCarriedOutLess(w, first, last, sizes);
    var v := CarryOutAll(w, first).value;
    assert last in [last];
    RowsFound(v, last, e, blob, sizes);
    PublishOnly(v.catalog, blob, e.(pinned := true), SubjectOf(last));
  }

  lemma ListsPinned(p: Snapshot, last: Claim, listed: seq<Claim>, limit: int)
    requires Pending(p, last) && ClaimedPinned(p, last) && last.EntryClaim? && last.shared
    requires OnlySubject(p, SubjectOf(last)) && AllPendingIn(p, listed)
    requires 0 < limit && (|listed| < limit ==> Covers(p, listed))
    ensures exists k | k in listed :: ClaimedPinned(p, k)
  {
    hide Pending;
    ListsSome(p, last, listed, limit);
    var k := listed[0];
    assert k in listed && SubjectOf(k) == EntrySubject(last.entryId);
    assert ClaimedPinned(p, k);
  }

  lemma ListsSome(p: Snapshot, last: Claim, listed: seq<Claim>, limit: int)
    requires Pending(p, last) && AllPendingIn(p, listed) && 0 < limit && (|listed| < limit ==> Covers(p, listed))
    ensures listed != []
  {
    hide Pending;
    assert |listed| < limit ==> Listed(listed, SubjectOf(last));
  }

  lemma PublishOnly(c: Snapshot, blob: Blob, entry: Entry, s: Subject)
    requires Publish(c, blob, entry).Some? && OnlySubject(c, s)
    requires BlobRow(c.blobs, blob.id).Some? && EntryRow(c.entries, entry.id).Some?
    ensures OnlySubject(Publish(c, blob, entry).value, s)
  {
    var r := Publish(c, blob, entry).value;
    forall k | Pending(r, k) ensures Pending(c, k) { PublishPendingBack(c, blob, entry, k); }
  }

  lemma PublishPendingBack(c: Snapshot, blob: Blob, entry: Entry, k: Claim)
    requires Publish(c, blob, entry).Some? && Pending(Publish(c, blob, entry).value, k)
    requires BlobRow(c.blobs, blob.id).Some? && EntryRow(c.entries, entry.id).Some?
    ensures Pending(c, k)
  {
    var r := Publish(c, blob, entry).value;
    assert r.references == c.references && r.materializations == c.materializations;
    SameClaims(c, r);
    PublishRows(c, blob, entry);
    hide Publish, Claimed, BlobRow, EntryRow, RowsAlike;
    match k
    case MaterializationClaim(_, _, _) =>
    case EntryClaim(id, blobId, size, shared) =>
      var e :| e in r.entries && e.id == id && e.blobId == blobId;
      var x := EntryBefore(c, r, e);
      var b :| b in r.blobs && b.id == blobId && b.size == size && (shared || b.state == BlobDeleting);
      var y := BlobBefore(c, r, b);
    case BlobClaim(blobId, size) =>
      var b :| b in r.blobs && b.id == blobId && b.size == size && b.state == BlobDeleting;
      var y := BlobBefore(c, r, b);
      forall x | x in c.entries ensures x.blobId != blobId { var e := EntryAfter(c, r, x); }
  }

  /** The same rows, but for what a publication refreshes. */
  ghost predicate RowsAlike(c: Snapshot, r: Snapshot) {
    && |r.blobs| == |c.blobs| && |r.entries| == |c.entries|
    && (forall i | 0 <= i < |c.blobs| :: r.blobs[i] == c.blobs[i].(lastAccessAt := r.blobs[i].lastAccessAt))
    && (forall i | 0 <= i < |c.entries| ::
         r.entries[i].id == c.entries[i].id && r.entries[i].blobId == c.entries[i].blobId)
  }

  lemma BlobBefore(c: Snapshot, r: Snapshot, b: Blob) returns (x: Blob)
    requires RowsAlike(c, r) && b in r.blobs
    ensures x in c.blobs && x.id == b.id && x.size == b.size && x.state == b.state
  {
    var i :| 0 <= i < |r.blobs| && r.blobs[i] == b;
    x := c.blobs[i];
  }

  lemma EntryBefore(c: Snapshot, r: Snapshot, e: Entry) returns (x: Entry)
    requires RowsAlike(c, r) && e in r.entries
    ensures x in c.entries && x.id == e.id && x.blobId == e.blobId
  {
    var i :| 0 <= i < |r.entries| && r.entries[i] == e;
    x := c.entries[i];
  }

  lemma EntryAfter(c: Snapshot, r: Snapshot, x: Entry) returns (e: Entry)
    requires RowsAlike(c, r) && x in c.entries
    ensures e in r.entries && x.id == e.id && x.blobId == e.blobId
  {
    var i :| 0 <= i < |c.entries| && c.entries[i] == x;
    e := r.entries[i];
  }

  lemma SameClaims(c: Snapshot, r: Snapshot)
    requires r.references == c.references
    ensures forall id, b :: Claimed(r, id, b) == Claimed(c, id, b)
  {
  }

  lemma PublishRows(c: Snapshot, blob: Blob, entry: Entry)
    requires Publish(c, blob, entry).Some?
    requires BlobRow(c.blobs, blob.id).Some? && EntryRow(c.entries, entry.id).Some?
    ensures RowsAlike(c, Publish(c, blob, entry).value)
  {
    hide BlobRow, EntryRow;
  }
}
