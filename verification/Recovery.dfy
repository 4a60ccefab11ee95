/** Which claims are pending, how a recovery works them off, and when it can. */
module CacheRecovery {
  import opened Wrappers
  import opened Keyed
  import opened CacheRecords
  import opened CacheEviction
  import opened CacheCatalog
  import opened CacheDeletion
  import opened CacheStores
  import opened CacheTransactions
  import opened CacheOutside
  import opened CacheSteps

  // ----- Pending claims come and go with their rows -----

  lemma RelyPendingBack(c: Snapshot, r: Snapshot, k: Claim)
    requires Rely(c, r) && Pending(r, k)
    ensures Pending(c, k)
  {
    MildTables(c, r);
    hide Mild, Claimed;
    match k
    case MaterializationClaim(id, contentId, size) =>
    case EntryClaim(id, blobId, size, shared) =>
      var f :| f in r.entries && f.id == id && f.blobId == blobId;
      var e := MildEntryBack(c, r, f);
    case BlobClaim(blobId, size) =>
      forall e | e in c.entries ensures e.blobId != blobId { var f := MildEntry(c, r, e); }
  }

  /** What is left after finalizing a claim was there before, bar the claim's row. */
  ghost predicate Leaves(c: Snapshot, r: Snapshot, k: Claim) {
    && (forall m | m in r.materializations :: m in c.materializations && SubjectOf(k) != MaterializationSubject(m.id))
    && (forall e | e in r.entries :: e in c.entries && !(k.EntryClaim? && e.id == k.entryId))
    && (forall e | e in c.entries :: e in r.entries || (k.EntryClaim? && e.id == k.entryId))
    && (forall b | b in r.blobs :: b in c.blobs && SubjectOf(k) != BlobSubject(b.id))
    && (forall id, b :: Claimed(r, id, b) ==> Claimed(c, id, b))
  }

  lemma FinalizeLeaves(c: Snapshot, k: Claim)
    requires FinalizeEviction(c, k).Some?
    ensures Leaves(c, FinalizeEviction(c, k).value, k)
  {
    match k
    case MaterializationClaim(id, _, _) => WithoutMembers(c.materializations, MaterializationKey, id);
    case BlobClaim(id, _) => WithoutMembers(c.blobs, BlobKey, id);
    case EntryClaim(id, blobId, _, shared) =>
      WithoutMembers(c.entries, EntryKey, id);
      WithoutMembers(c.blobs, BlobKey, blobId);
      ClaimDropped(c.references, id, blobId);
  }

  /** Finalizing a claim makes no other claim, and its row has none left. */
  lemma FinalizeLess(c: Snapshot, k: Claim, l: Claim, sizes: Sizes)
    requires TidyCatalog(c, sizes) && Pending(c, k) && FinalizeEviction(c, k).Some?
    requires Pending(FinalizeEviction(c, k).value, l)
    ensures Pending(c, l) && SubjectOf(l) != SubjectOf(k)
  {
    var r := FinalizeEviction(c, k).value;
    FinalizeLeaves(c, k);
    hide FinalizeEviction, TidyCatalog, Claimed;
    if l.BlobClaim? { LoneStays(c, r, k, l, sizes); }
  }

  lemma LoneStays(c: Snapshot, r: Snapshot, k: Claim, l: Claim, sizes: Sizes)
    requires TidyCatalog(c, sizes) && Pending(c, k) && Leaves(c, r, k) && Pending(r, l) && l.BlobClaim?
    ensures Pending(c, l) && SubjectOf(l) != SubjectOf(k)
  {
    hide TidyCatalog, Claimed;
    assert DeletingBlob(c, l.blobId);
    if k.EntryClaim? && k.shared {
      SharedIsPublished(c, k, sizes);
      PublishedNotDeletingTidy(c, k.blobId, sizes);
    }
    if k.EntryClaim? { PendingDooms(c, k, sizes); }
  }

  ghost predicate NothingPending(c: Snapshot) { forall k :: !Pending(c, k) }

  /** Every pending claim is about one row. */
  ghost predicate OnlySubject(c: Snapshot, s: Subject) { forall k | Pending(c, k) :: SubjectOf(k) == s }

  lemma SettledNothing(c: Snapshot)
    requires Settled(c)
    ensures NothingPending(c)
  {
    hide Claimed;
  }

  lemma NothingSettled(c: Snapshot)
    requires WellLinked(c) && NothingPending(c)
    ensures Settled(c)
  {
    forall m | m in c.materializations ensures m.state != Deleting {
      assert !Pending(c, MaterializationClaim(m.id, m.currentBlobId, m.size));
    }
    forall b | b in c.blobs ensures b.state == BlobPublished {
      assert !Pending(c, BlobPendingClaim(c, b));
    }
    forall e | e in c.entries ensures !Claimed(c, e.id, e.blobId) {
      assert e.blobId in BlobIds(c);
      var b :| b in c.blobs && b.id == e.blobId;
      assert !Pending(c, EntryClaim(e.id, e.blobId, b.size, true));
    }
  }

  /** Once a claim that was about the only row is finalized, nothing is pending. */
  lemma LastClaimSettles(c: Snapshot, claimed: Snapshot, k: Claim, r: Snapshot, sizes: Sizes)
    requires OnlySubject(c, SubjectOf(k)) && Pending(c, k) && Rely(c, claimed) && TidyCatalog(claimed, sizes)
    requires FinalizeEviction(claimed, k).Some? && Rely(FinalizeEviction(claimed, k).value, r) && WellLinked(r)
    ensures Settled(r)
  {
    hide Rely, TidyCatalog, Pending, FinalizeEviction, WellLinked;
    RelyPending(c, claimed, k);
    forall l ensures !Pending(r, l) {
      if Pending(r, l) {
        RelyPendingBack(FinalizeEviction(claimed, k).value, r, l);
        FinalizeLess(claimed, k, l, sizes);
        RelyPendingBack(c, claimed, l);
      }
    }
    NothingSettled(r);
  }

  // ----- Calm catalogs -----

  ghost predicate AllPendingIn(c: Snapshot, claims: seq<Claim>) { forall k | k in claims :: Pending(c, k) }

  /** At most `n` rows are under a claim. */
  ghost predicate Few(c: Snapshot, n: int) {
    forall claims | DistinctSubjects(claims) && AllPendingIn(c, claims) :: |claims| <= n
  }

  ghost predicate NonePinned(c: Snapshot) { forall k | Pending(c, k) :: !ClaimedPinned(c, k) }

  /** No more claims are pending than one recovery lists, and none is on an entry
      that has been pinned since. */
  ghost predicate Calm(c: Snapshot, n: int) { Few(c, n) && NonePinned(c) }

  lemma FewLess(c: Snapshot, r: Snapshot, n: int)
    requires Few(c, n) && forall k | Pending(r, k) :: Pending(c, k)
    ensures Few(r, n)
  {
    hide Pending, DistinctSubjects;
    forall claims | DistinctSubjects(claims) && AllPendingIn(r, claims) ensures |claims| <= n {
      assert AllPendingIn(c, claims);
    }
  }

  lemma RelyCalm(c: Snapshot, r: Snapshot, n: int)
    requires Calm(c, n) && Rely(c, r)
    ensures Calm(r, n)
  {
    hide Rely, Pending, ClaimedPinned, Few;
    forall k | Pending(r, k) ensures Pending(c, k) && !ClaimedPinned(r, k) {
      RelyPendingBack(c, r, k);
      RelyPinned(c, r, k);
    }
    FewLess(c, r, n);
  }

  lemma FinalizeCalm(c: Snapshot, k: Claim, n: int, sizes: Sizes)
    requires Calm(c, n) && TidyCatalog(c, sizes) && Pending(c, k) && FinalizeEviction(c, k).Some?
    ensures Calm(FinalizeEviction(c, k).value, n)
  {
    var r := FinalizeEviction(c, k).value;
    FinalizeLeaves(c, k);
    hide TidyCatalog, Pending, FinalizeEviction, Few;
    forall l | Pending(r, l) ensures Pending(c, l) && !ClaimedPinned(r, l) {
      FinalizeLess(c, k, l, sizes);
    }
    FewLess(c, r, n);
  }

  lemma {:induction false} DistinctCount(claims: seq<Claim>, subjects: set<Subject>)
    requires DistinctSubjects(claims) && forall k | k in claims :: SubjectOf(k) in subjects
    ensures |claims| <= |subjects|
  {
    if claims != [] {
      var front, last := claims[..|claims| - 1], claims[|claims| - 1];
      forall k | k in front ensures SubjectOf(k) != SubjectOf(last) { var i :| 0 <= i < |front| && front[i] == k; }
      DistinctCount(front, subjects - {SubjectOf(last)});
    }
  }

  lemma SettledCalm(c: Snapshot, n: int)
    requires Settled(c) && 0 <= n
    ensures Calm(c, n)
  {
    SettledNothing(c);
    hide Pending, Settled, DistinctSubjects;
    forall claims | DistinctSubjects(claims) && AllPendingIn(c, claims)
      ensures |claims| <= n
    {
      DistinctCount(claims, {});
    }
  }

  lemma OneFew(c: Snapshot, s: Subject)
    requires OnlySubject(c, s)
    ensures Few(c, 1)
  {
    hide Pending, DistinctSubjects;
    forall claims | DistinctSubjects(claims) && AllPendingIn(c, claims)
      ensures |claims| <= 1
    {
      DistinctCount(claims, {s});
    }
  }

  lemma FewMore(c: Snapshot, m: int, n: int)
    requires Few(c, m) && m <= n
    ensures Few(c, n)
  {
    hide Pending, DistinctSubjects, AllPendingIn;
  }

  /** A claim granted on a settled catalog is the only one, and on no pinned entry. */
  lemma BeginOnly(c: Snapshot, t: EvictionTarget, at: Time)
    requires WellLinked(c) && Settled(c) && BeginEviction(c, t, at).Some?
    ensures var (r, k) := BeginEviction(c, t, at).value; OnlySubject(r, SubjectOf(k)) && NonePinned(r)
  {
    var (r, k) := BeginEviction(c, t, at).value;
    match t
    case MaterializationEviction(id) => BeginOnlyMaterialization(c, id, at);
    case EntryEviction(id) => BeginOnlyEntry(c, id, at);
    case BlobEviction(id) => MarkedOnly(c, id);
  }

  lemma BeginOnlyMaterialization(c: Snapshot, id: string, at: Time)
    requires WellLinked(c) && Settled(c) && BeginEviction(c, MaterializationEviction(id), at).Some?
    ensures var (r, k) := BeginEviction(c, MaterializationEviction(id), at).value;
      OnlySubject(r, SubjectOf(k)) && NonePinned(r)
  {
    var (r, k) := BeginEviction(c, MaterializationEviction(id), at).value;
    hide WellLinked, Referenced, Leased;
    assert forall x, b :: Claimed(r, x, b) == Claimed(c, x, b);
    hide Claimed;
    forall l | Pending(r, l) ensures SubjectOf(l) == MaterializationSubject(id) {
      if l.MaterializationClaim? {
        var m :| m in r.materializations && m.id == l.materializationId && m.state == Deleting;
        var i :| 0 <= i < |r.materializations| && r.materializations[i] == m;
        assert c.materializations[i] in c.materializations;
      }
    }
  }

  /** Marking a blob makes the claims on it the only ones. */
  lemma MarkedOnly(c: Snapshot, id: string)
    requires Settled(c)
    ensures OnlySubject(MarkDeleting(c, id), BlobSubject(id)) && NonePinned(MarkDeleting(c, id))
  {
    var r := MarkDeleting(c, id);
    assert forall x, b :: Claimed(r, x, b) == Claimed(c, x, b);
    assert r.entries == c.entries && r.materializations == c.materializations;
    hide Claimed, MarkDeleting;
    forall l | Pending(r, l) ensures SubjectOf(l) == BlobSubject(id) {
      if !l.MaterializationClaim? {
        assert !(l.EntryClaim? && l.shared);
        var x :| x in r.blobs && x.id == l.blobId && x.state == BlobDeleting;
        var b := MarkRow(c, id, x);
      }
    }
  }

  lemma BeginOnlyEntry(c: Snapshot, id: string, at: Time)
    requires WellLinked(c) && Settled(c) && BeginEviction(c, EntryEviction(id), at).Some?
    ensures var (r, k) := BeginEviction(c, EntryEviction(id), at).value; OnlySubject(r, SubjectOf(k)) && NonePinned(r)
  {
    var (r, k) := BeginEviction(c, EntryEviction(id), at).value;
    var e := EntryRow(c.entries, id).value;
    if EntryCount(c.entries, e.blobId) == 1 {
      MarkedOnly(c, e.blobId);
    } else {
      ClaimedOnly(c, e, Reference(ClaimReferenceId(id), EvictionClaim(id), BlobTarget(e.blobId), at));
    }
  }

  lemma ClaimedOnly(c: Snapshot, e: Entry, claim: Reference)
    requires WellLinked(c) && Settled(c) && e in c.entries && !e.pinned && claim.owner == EvictionClaim(e.id)
    ensures var r := c.(references := c.references + [claim]); OnlySubject(r, EntrySubject(e.id)) && NonePinned(r)
  {
    var r := c.(references := c.references + [claim]);
    forall f | f in r.entries && Claimed(r, f.id, f.blobId) ensures f.id == e.id {
      assert !Claimed(c, f.id, f.blobId);
    }
    forall l | Pending(r, l) ensures SubjectOf(l) == EntrySubject(e.id) && !ClaimedPinned(r, l) {
      forall f | f in c.entries && f.id == e.id ensures f == e { EntryUnique(c, f, e); }
      hide Claimed, WellLinked;
      assert l.EntryClaim? && l.shared;
      var f :| f in r.entries && f.id == l.entryId && f.blobId == l.blobId;
    }
  }

  lemma BeginCalm(c: Snapshot, t: EvictionTarget, at: Time, n: int)
    requires WellLinked(c) && Settled(c) && BeginEviction(c, t, at).Some? && 1 <= n
    ensures Calm(BeginEviction(c, t, at).value.0, n)
  {
    BeginOnly(c, t, at);
    hide BeginEviction, OnlySubject, NonePinned, WellLinked, Settled;
    var (r, k) := BeginEviction(c, t, at).value;
    OneFew(r, SubjectOf(k));
    FewMore(r, 1, n);
  }

  /** A settled catalog has no claims at all. */
  lemma SettledNoClaims(c: Snapshot, sizes: Sizes)
    requires TidyCatalog(c, sizes) && Settled(c)
    ensures forall x | x in c.references :: !x.owner.EvictionClaim?
  {
    forall x | x in c.references ensures !x.owner.EvictionClaim? {
      if x.owner.EvictionClaim? {
        assert ClaimStands(c, x);
        var e :| e in c.entries && e.id == x.owner.entryId && x.target == BlobTarget(e.blobId);
        assert Claimed(c, e.id, e.blobId);
      }
    }
  }

  lemma PublishSettled(c: Snapshot, blob: Blob, entry: Entry, sizes: Sizes)
    requires TidyCatalog(c, sizes) && Settled(c) && Publish(c, blob, entry).Some?
    ensures Settled(Publish(c, blob, entry).value)
  {
    SettledNoClaims(c, sizes);
    hide TidyCatalog;
    var r := Publish(c, blob, entry).value;
    forall x | x in r.blobs ensures x.state == BlobPublished {
      if BlobRow(c.blobs, blob.id).Some? { var b := TouchRow(c.blobs, blob.id, blob.lastAccessAt, x); }
    }
  }

  lemma HandoffSettled(c: Snapshot, m: Materialization, reference: Reference, lease: Lease, sizes: Sizes)
    requires TidyCatalog(c, sizes) && Settled(c) && PrepareHandoff(c, m, reference, lease).Some?
    ensures Settled(PrepareHandoff(c, m, reference, lease).value)
  {
    SettledNoClaims(c, sizes);
    hide TidyCatalog;
  }

  lemma SettledStays(c: Snapshot, r: Snapshot)
    requires Rely(c, r) && Settled(c)
    ensures Settled(r)
  {
    MildTables(c, r);
    hide Mild, Claimed;
    forall f | f in r.entries ensures !Claimed(r, f.id, f.blobId) { var e := MildEntryBack(c, r, f); }
  }

  // ----- Working off a list of claims -----

  /** Of the claims pending before, those about the first `n` rows are gone, and no
      claim is new. */
  ghost predicate WorkedOff(was: Snapshot, c: Snapshot, claims: seq<Claim>, n: nat) {
    forall k | Pending(c, k) :: Pending(was, k) && forall i | 0 <= i < n && i < |claims| ::
      SubjectOf(claims[i]) != SubjectOf(k)
  }

  lemma WorkedOffNone(c: Snapshot, claims: seq<Claim>)
    ensures WorkedOff(c, c, claims, 0)
  {
  }

  lemma WorkedOffNext(was: Snapshot, c: Snapshot, claimed: Snapshot, r: Snapshot, claims: seq<Claim>,
        n: nat, sizes: Sizes)
    requires n < |claims| && WorkedOff(was, c, claims, n) && Pending(c, claims[n]) && Rely(c, claimed)
    requires TidyCatalog(claimed, sizes)
    requires FinalizeEviction(claimed, claims[n]).Some? && Rely(FinalizeEviction(claimed, claims[n]).value, r)
    ensures WorkedOff(was, r, claims, n + 1)
  {
    hide Rely, TidyCatalog, Pending, FinalizeEviction;
    RelyPending(c, claimed, claims[n]);
    forall k | Pending(r, k) ensures Pending(c, k) && SubjectOf(k) != SubjectOf(claims[n]) {
      RelyPendingBack(FinalizeEviction(claimed, claims[n]).value, r, k);
      FinalizeLess(claimed, claims[n], k, sizes);
      RelyPendingBack(c, claimed, k);
    }
  }

  /** A list that covers every pending claim, worked off, leaves nothing pending. */
  lemma WorkedOffAll(was: Snapshot, c: Snapshot, claims: seq<Claim>)
    requires WorkedOff(was, c, claims, |claims|) && Covers(was, claims) && WellLinked(c)
    ensures Settled(c)
  {
    hide Pending, WellLinked;
    forall k ensures !Pending(c, k) {
      assert Pending(was, k) ==> Listed(claims, SubjectOf(k));
      if Listed(claims, SubjectOf(k)) {
        var l :| l in claims && SubjectOf(l) == SubjectOf(k);
        var i :| 0 <= i < |claims| && claims[i] == l;
      }
    }
    NothingSettled(c);
  }

  /** A full list of distinct claims covers everything when there are no more. */
  lemma FullListCovers(c: Snapshot, claims: seq<Claim>)
    requires DistinctSubjects(claims) && AllPendingIn(c, claims) && Few(c, |claims|)
    ensures Covers(c, claims)
  {
    hide Pending;
    forall k | Pending(c, k) ensures Listed(claims, SubjectOf(k)) {
      var more := claims + [k];
      assert AllPendingIn(c, more) && !DistinctSubjects(more);
      var i, j :| 0 <= i < j < |more| && SubjectOf(more[i]) == SubjectOf(more[j]);
      assert more[i] in claims;
    }
  }

  /** Working off a list lowers the bound by its length. */
  lemma FewerLeft(was: Snapshot, c: Snapshot, claims: seq<Claim>, n: int)
    requires Few(was, n) && DistinctSubjects(claims) && AllPendingIn(was, claims) && WorkedOff(was, c, claims, |claims|)
    ensures Few(c, n - |claims|)
  {
    hide Pending;
    forall left | DistinctSubjects(left) && AllPendingIn(c, left) ensures |left| <= n - |claims| {
      var all := claims + left;
      assert forall i | 0 <= i < |left| :: left[i] in left;
      assert DistinctSubjects(all);
      assert AllPendingIn(was, all);
    }
  }

  lemma FewNone(c: Snapshot)
    requires Few(c, 0) && WellLinked(c)
    ensures Settled(c)
  {
    hide Pending, WellLinked;
    forall k ensures !Pending(c, k) {
      assert DistinctSubjects([k]) && (Pending(c, k) ==> AllPendingIn(c, [k]));
    }
    NothingSettled(c);
  }

  // ----- When a claim can be carried out -----

  /** The files under a materialization claim are the claimed ones, and their
      manifest names the source the catalog has. */
  ghost predicate OwnFiles(w: World, k: Claim)
    requires k.MaterializationClaim?
  {
    var dir := DirectoryAt(w.disk.materializations, k.materializationId);
    && MaterializationDeletable(dir, k.materializationId, BlobIdentity(k.contentId, k.contentSize),
      w.disk.blobs, w.disk.entries)
    && (dir.Present? && MANIFEST in dir.children ==>
      exists m | m in w.catalog.materializations :: NamesSource(m, k, dir.children[MANIFEST].data))
  }

  ghost predicate NamesSource(m: Materialization, k: Claim, data: Data)
    requires k.MaterializationClaim?
  {
    && m.id == k.materializationId && m.state == Deleting && data.MaterializationManifest?
    && data.sourceEntryId == m.entryId && data.baselineBlobId == m.baselineBlobId
  }

  ghost predicate Recoverable(w: World, k: Claim) {
    if k.MaterializationClaim? then OwnFiles(w, k) else !ClaimedPinned(w.catalog, k)
  }

  ghost predicate AllRecoverable(w: World) { forall k | Pending(w.catalog, k) :: Recoverable(w, k) }

  // ----- What has been deleted -----

  /** The bytes under the claim are gone. */
  ghost predicate Cleared(d: Disk, k: Claim) {
    match k
    case MaterializationClaim(id, _, _) => DirectoryAt(d.materializations, id).Absent?
    case EntryClaim(id, blobId, _, shared) => id !in d.entries && (!shared ==> blobId !in d.blobs)
    case BlobClaim(blobId, _) => blobId !in d.blobs
  }

  /** Nothing has come back. */
  ghost predicate Emptier(d: Disk, e: Disk) {
    && (forall id | id in e.entries :: id in d.entries)
    && (forall id | id in e.blobs :: id in d.blobs)
    && (forall id | DirectoryAt(d.materializations, id).Absent? :: DirectoryAt(e.materializations, id).Absent?)
  }

  lemma ClearedStays(d: Disk, e: Disk, k: Claim)
    requires Cleared(d, k) && Emptier(d, e)
    ensures Cleared(e, k)
  {
  }

  lemma EmptierTrans(d: Disk, e: Disk, f: Disk)
    requires Emptier(d, e) && Emptier(e, f)
    ensures Emptier(d, f)
  {
    hide DirectoryAt;
  }

  /** A row is under one claim at a time. */
  lemma SubjectDetermines(c: Snapshot, k: Claim, l: Claim, sizes: Sizes)
    requires TidyCatalog(c, sizes) && Pending(c, k) && Pending(c, l) && SubjectOf(k) == SubjectOf(l)
    ensures k == l
  {
    if k.MaterializationClaim? {
      SameCopyClaim(c, k, l);
    } else if SubjectOf(k).EntrySubject? {
      SharedClaimsSame(c, k, l, sizes);
    } else {
      BlobClaimsSame(c, k, l, sizes);
    }
  }

  lemma SharedClaimsSame(c: Snapshot, k: Claim, l: Claim, sizes: Sizes)
    requires TidyCatalog(c, sizes) && Pending(c, k) && Pending(c, l) && SubjectOf(k) == SubjectOf(l)
    requires SubjectOf(k).EntrySubject?
    ensures k == l
  {
    PendingDooms(c, k, sizes);
    hide Doomed, Claimed;
    var e :| e in c.entries && e.id == l.entryId && e.blobId == l.blobId;
    assert k.blobSize == sizes(k.blobId) && l.blobSize == sizes(l.blobId);
  }

  lemma BlobClaimsSame(c: Snapshot, k: Claim, l: Claim, sizes: Sizes)
    requires TidyCatalog(c, sizes) && Pending(c, k) && Pending(c, l) && SubjectOf(k) == SubjectOf(l)
    requires SubjectOf(k).BlobSubject?
    ensures k == l
  {
    DeletingSubject(c, k);
    DeletingUnheld(c, SubjectOf(k).id, sizes);
    assert k.blobSize == sizes(k.blobId) && l.blobSize == sizes(l.blobId);
    hide Claimed, TidyCatalog;
  }

  // ----- What one step leaves alone -----

  /** The disk differs at most in these entries, these blobs and, among the copies
      being deleted, these. */
  ghost predicate Spares(d: Disk, e: Disk, c: Snapshot, entries: set<string>, blobs: set<string>, copies: set<string>) {
    && (forall id | id !in entries :: id in d.entries <==> id in e.entries)
    && (forall id | id !in entries && id in d.entries && id in e.entries :: e.entries[id] == d.entries[id])
    && (forall id | id !in blobs :: id in d.blobs <==> id in e.blobs)
    && (forall id | id !in blobs && id in d.blobs && id in e.blobs :: e.blobs[id] == d.blobs[id])
    && (forall id | id !in copies && BeingDeleted(c, id) ::
         DirectoryAt(e.materializations, id) == DirectoryAt(d.materializations, id))
    && Emptier(d, e)
  }

  ghost function EntriesUnder(k: Claim): set<string> { if k.EntryClaim? then {k.entryId} else {} }

  ghost function BlobsUnder(k: Claim): set<string> { if SubjectOf(k).BlobSubject? then {SubjectOf(k).id} else {} }

  ghost function CopiesUnder(k: Claim): set<string> { if k.MaterializationClaim? then {k.materializationId} else {} }

  ghost predicate SparesOthers(d: Disk, e: Disk, c: Snapshot, k: Claim) {
    Spares(d, e, c, EntriesUnder(k), BlobsUnder(k), CopiesUnder(k))
  }

  lemma SparesTrans(d: Disk, e: Disk, f: Disk, a: Snapshot, b: Snapshot, entries: set<string>,
        blobs: set<string>, copies: set<string>)
    requires Spares(d, e, a, entries, blobs, copies) && Rely(a, b) && Spares(e, f, b, entries, blobs, copies)
    ensures Spares(d, f, a, entries, blobs, copies)
  {
    RelyDeleting(a, b);
    EmptierTrans(d, e, f);
    hide Rely, BeingDeleted, Emptier, DirectoryAt;
  }

  lemma SparesRely(d: Disk, e: Disk, f: Disk, c: Snapshot, entries: set<string>,
        blobs: set<string>, copies: set<string>)
    requires Spares(d, e, c, entries, blobs, copies) && DiskRely(e, f, c)
    ensures Spares(d, f, c, entries, blobs, copies)
  {
    EmptierTrans(d, e, f);
    hide BeingDeleted, Emptier, DirectoryAt;
  }

  lemma SparesNothing(d: Disk, c: Snapshot, entries: set<string>, blobs: set<string>, copies: set<string>)
    ensures Spares(d, d, c, entries, blobs, copies)
  {
  }

  lemma SparesFewer(d: Disk, e: Disk, c: Snapshot, k: Claim, entries: set<string>, blobs: set<string>)
    requires Spares(d, e, c, entries, blobs, {}) && entries <= EntriesUnder(k) && blobs <= BlobsUnder(k)
    ensures SparesOthers(d, e, c, k)
  {
    hide BeingDeleted;
  }

  // ----- Runs -----

  /** The worlds from position `n` on come from outside steps alone. */
  ghost predicate OutsideRun(worlds: seq<World>, n: nat, d: Disk, c: Snapshot) {
    forall i | n <= i < |worlds| :: Rely(c, worlds[i].catalog) && DiskRely(d, worlds[i].disk, c)
  }

  ghost predicate SparesRun(worlds: seq<World>, n: nat, w: World, entries: set<string>,
        blobs: set<string>, copies: set<string>) {
    forall i | n <= i < |worlds| ::
      Rely(w.catalog, worlds[i].catalog) && Spares(w.disk, worlds[i].disk, w.catalog, entries, blobs, copies)
  }

  lemma OutsideRunEmpty(worlds: seq<World>, d: Disk, c: Snapshot)
    ensures OutsideRun(worlds, |worlds|, d, c)
  {
  }

  lemma OutsideRunMore(worlds: seq<World>, n: nat, d: Disk, c: Snapshot, w: World)
    requires OutsideRun(worlds, n, d, c) && Rely(c, w.catalog) && DiskRely(d, w.disk, c)
    ensures OutsideRun(worlds + [w], n, d, c)
  {
    hide Rely, DiskRely;
  }

  lemma OutsideRunSpares(worlds: seq<World>, n: nat, d: Disk, w: World, entries: set<string>,
        blobs: set<string>, copies: set<string>)
    requires OutsideRun(worlds, n, d, w.catalog) && Spares(w.disk, d, w.catalog, entries, blobs, copies)
    ensures SparesRun(worlds, n, w, entries, blobs, copies)
  {
    hide Rely, Spares, DiskRely;
    forall i | n <= i < |worlds| ensures Spares(w.disk, worlds[i].disk, w.catalog, entries, blobs, copies) {
      SparesRely(w.disk, d, worlds[i].disk, w.catalog, entries, blobs, copies);
    }
  }

  lemma SparesRunJoin(first: seq<World>, all: seq<World>, n: nat, w: World, v: World, entries: set<string>,
        blobs: set<string>, copies: set<string>)
    requires first <= all && SparesRun(first, n, w, entries, blobs, copies)
    requires SparesRun(all, |first|, v, entries, blobs, copies)
    requires Rely(w.catalog, v.catalog) && Spares(w.disk, v.disk, w.catalog, entries, blobs, copies)
    ensures SparesRun(all, n, w, entries, blobs, copies)
  {
    hide Rely, Spares;
    forall i | n <= i < |all|
      ensures Rely(w.catalog, all[i].catalog) && Spares(w.disk, all[i].disk, w.catalog, entries, blobs, copies)
    {
      if i < |first| {
        assert all[i] == first[i];
      } else {
        RelyTrans(w.catalog, v.catalog, all[i].catalog);
        SparesTrans(w.disk, v.disk, all[i].disk, w.catalog, v.catalog, entries, blobs, copies);
      }
    }
  }

  /** A copy loses files and gains none. */
  ghost predicate Shrinks(was: Directory, dir: Directory) {
    dir.Present? ==>
      was.Present? && forall f | f in dir.children :: f in was.children && dir.children[f] == was.children[f]
  }

  /** The copy is still to be deleted, and can be. */
  ghost predicate StaysDeletable(was: Disk, d: Disk, id: string, expected: BlobIdentity) {
    && d.blobs == was.blobs && d.entries == was.entries
    && MaterializationDeletable(DirectoryAt(d.materializations, id), id, expected, d.blobs, d.entries)
    && Shrinks(DirectoryAt(was.materializations, id), DirectoryAt(d.materializations, id))
  }

  ghost predicate DeletableRun(worlds: seq<World>, n: nat, was: Disk, id: string, expected: BlobIdentity) {
    forall i | n <= i < |worlds| :: StaysDeletable(was, worlds[i].disk, id, expected)
  }

  // ----- Other claims across a step -----

  /** The source of a materialization is under no claim. */
  lemma SourceUntouched(c: Snapshot, m: Materialization, k: Claim, sizes: Sizes)
    requires TidyCatalog(c, sizes) && m in c.materializations && Pending(c, k)
    ensures m.entryId !in EntriesUnder(k) && m.baselineBlobId !in BlobsUnder(k)
  {
    if SubjectOf(k).BlobSubject? {
      DeletingSubject(c, k);
      DeletingUnheld(c, SubjectOf(k).id, sizes);
    } else if k.EntryClaim? {
      var x :| x in c.references && x.owner == EvictionClaim(k.entryId) && x.target == BlobTarget(k.blobId);
      assert ClaimStands(c, x);
    }
  }

  lemma DeletableStays(d: Disk, e: Disk, c: Snapshot, m: Materialization, k: Claim, l: Claim)
    requires l.MaterializationClaim? && SparesOthers(d, e, c, k) && BeingDeleted(c, l.materializationId)
    requires SubjectOf(k) != SubjectOf(l)
    requires m.entryId !in EntriesUnder(k) && m.baselineBlobId !in BlobsUnder(k)
    requires var dir := DirectoryAt(d.materializations, l.materializationId);
      && MaterializationDeletable(dir, l.materializationId, BlobIdentity(l.contentId, l.contentSize),
        d.blobs, d.entries)
      && (dir.Present? && MANIFEST in dir.children ==> NamesSource(m, l, dir.children[MANIFEST].data))
    ensures DirectoryAt(e.materializations, l.materializationId) == DirectoryAt(d.materializations, l.materializationId)
    ensures MaterializationDeletable(DirectoryAt(e.materializations, l.materializationId), l.materializationId,
              BlobIdentity(l.contentId, l.contentSize), e.blobs, e.entries)
  {
    hide BeingDeleted;
  }

  lemma SourceOf(w: World, l: Claim) returns (m: Materialization)
    requires l.MaterializationClaim? && Pending(w.catalog, l) && OwnFiles(w, l)
    ensures m in w.catalog.materializations && m.id == l.materializationId && m.state == Deleting
    ensures var dir := DirectoryAt(w.disk.materializations, l.materializationId);
      dir.Present? && MANIFEST in dir.children ==> NamesSource(m, l, dir.children[MANIFEST].data)
  {
    hide MaterializationDeletable;
    var dir := DirectoryAt(w.disk.materializations, l.materializationId);
    if dir.Present? && MANIFEST in dir.children {
      m :| m in w.catalog.materializations && NamesSource(m, l, dir.children[MANIFEST].data);
    } else {
      m :| m in w.catalog.materializations && m.id == l.materializationId && m.state == Deleting;
    }
  }

  /** The files of another copy stay its own as long as its row does. */
  lemma OwnFilesStay(w: World, v: World, k: Claim, l: Claim, sizes: Sizes)
    requires Consistent(w, sizes) && Pending(w.catalog, k) && Pending(w.catalog, l) && SubjectOf(k) != SubjectOf(l)
    requires l.MaterializationClaim? && OwnFiles(w, l) && SparesOthers(w.disk, v.disk, w.catalog, k)
    requires forall m | m in w.catalog.materializations && m.state == Deleting && m.id == l.materializationId ::
      m in v.catalog.materializations
    ensures OwnFiles(v, l)
  {
    var m := SourceOf(w, l);
    hide MaterializationDeletable, SparesOthers, TidyDisk, Backed, TidyCatalog;
    SourceUntouched(w.catalog, m, k, sizes);
    DeletableStays(w.disk, v.disk, w.catalog, m, k, l);
  }

  /** A later world in which no claim is new, every claim can still be carried out if
      it could before, and the bytes under every claim that is over are gone. */
  ghost predicate Resumes(w: World, v: World) {
    && (forall k | Pending(v.catalog, k) :: Pending(w.catalog, k) && (Recoverable(w, k) ==> Recoverable(v, k)))
    && (forall k | Pending(w.catalog, k) :: Pending(v.catalog, k) || Cleared(v.disk, k))
    && Emptier(w.disk, v.disk)
  }

  ghost predicate ResumesRun(worlds: seq<World>, n: nat, w: World) {
    forall i | n <= i < |worlds| :: Resumes(w, worlds[i])
  }

  lemma ResumesTrans(a: World, b: World, c: World)
    requires Resumes(a, b) && Resumes(b, c)
    ensures Resumes(a, c)
  {
    hide Pending, Recoverable, Cleared, Emptier;
    EmptierTrans(a.disk, b.disk, c.disk);
    forall k | Pending(a.catalog, k) ensures Pending(c.catalog, k) || Cleared(c.disk, k) {
      if Cleared(b.disk, k) { ClearedStays(b.disk, c.disk, k); }
    }
  }

  lemma ResumesRunJoin(first: seq<World>, all: seq<World>, n: nat, w: World, v: World)
    requires first <= all && ResumesRun(first, n, w) && ResumesRun(all, |first|, v) && Resumes(w, v)
    ensures ResumesRun(all, n, w)
  {
    hide Resumes;
    forall i | n <= i < |all| ensures Resumes(w, all[i]) {
      if i < |first| { assert all[i] == first[i]; } else { ResumesTrans(w, v, all[i]); }
    }
  }

  lemma SameCopyClaim(c: Snapshot, k: Claim, l: Claim)
    requires WellLinked(c) && Pending(c, k) && Pending(c, l) && SubjectOf(k) == SubjectOf(l) && k.MaterializationClaim?
    ensures l == k
  {
    var m :| m in c.materializations && m.id == k.materializationId && m.currentBlobId == k.contentId
      && m.size == k.contentSize;
    var n :| n in c.materializations && n.id == k.materializationId && n.currentBlobId == l.contentId
      && n.size == l.contentSize;
    KeyInjective(c.materializations, MaterializationKey, m, n);
  }

  /** While the bytes under a claim are being deleted. */
  lemma DeletingResumes(w: World, v: World, k: Claim, sizes: Sizes)
    requires Consistent(w, sizes) && Pending(w.catalog, k) && Rely(w.catalog, v.catalog)
    requires SparesOthers(w.disk, v.disk, w.catalog, k)
    requires k.MaterializationClaim? && OwnFiles(w, k) ==> OwnFiles(v, k)
    ensures Resumes(w, v)
  {
    assert WellLinked(w.catalog);
    forall m | m in w.catalog.materializations && m.state == Deleting ensures m in v.catalog.materializations { }
    assert Emptier(w.disk, v.disk);
    hide Consistent, WellLinked, Rely, OwnFiles, SparesOthers, Pending, ClaimedPinned, Emptier, Cleared;
    forall l | Pending(w.catalog, l) ensures Pending(v.catalog, l) { RelyPending(w.catalog, v.catalog, l); }
    forall l | Pending(v.catalog, l)
      ensures Pending(w.catalog, l) && (Recoverable(w, l) ==> Recoverable(v, l))
    {
      RelyPendingBack(w.catalog, v.catalog, l);
      RelyPinned(w.catalog, v.catalog, l);
      if l.MaterializationClaim? && SubjectOf(l) != SubjectOf(k) && OwnFiles(w, l) { OwnFilesStay(w, v, k, l, sizes); }
      if l.MaterializationClaim? && SubjectOf(l) == SubjectOf(k) { SameCopyClaim(w.catalog, k, l); }
    }
  }

  lemma FinalizedSpares(d: Disk, e: Disk, c: Snapshot, k: Claim)
    requires FinalizeEviction(c, k).Some? && DiskRely(d, e, FinalizeEviction(c, k).value)
    ensures SparesOthers(d, e, c, k)
  {
    FinalizeTakes(c, k);
    hide FinalizeEviction;
  }

  /** Once the claim is finalized. */
  lemma FinalizedResumes(w: World, v: World, k: Claim, sizes: Sizes)
    requires Consistent(w, sizes) && Pending(w.catalog, k) && FinalizeEviction(w.catalog, k).Some?
    requires Rely(FinalizeEviction(w.catalog, k).value, v.catalog)
    requires DiskRely(w.disk, v.disk, FinalizeEviction(w.catalog, k).value) && Cleared(w.disk, k)
    ensures Resumes(w, v)
  {
    hide Rely, OwnFiles, SparesOthers, Pending, ClaimedPinned, FinalizeEviction, Emptier, Cleared, DiskRely,
      TidyCatalog, TidyDisk, Backed;
    assert TidyCatalog(w.catalog, sizes);
    DiskRelyEmptier(w.disk, v.disk, FinalizeEviction(w.catalog, k).value);
    hide Consistent;
    FinalizedSpares(w.disk, v.disk, w.catalog, k);
    forall l | Pending(w.catalog, l) ensures Pending(v.catalog, l) || Cleared(v.disk, l) {
      OverOrPending(w, v, k, l, sizes);
    }
    hide Recoverable;
    forall l | Pending(v.catalog, l)
      ensures Pending(w.catalog, l) && (Recoverable(w, l) ==> Recoverable(v, l))
    {
      StillRecoverableAfter(w, v, k, l, sizes);
    }
  }

  lemma DiskRelyEmptier(d: Disk, e: Disk, c: Snapshot)
    requires DiskRely(d, e, c)
    ensures e.blobs == d.blobs && e.entries == d.entries && Emptier(d, e)
  {
  }

  lemma StillRecoverableAfter(w: World, v: World, k: Claim, l: Claim, sizes: Sizes)
    requires Consistent(w, sizes) && Pending(w.catalog, k) && FinalizeEviction(w.catalog, k).Some?
    requires Rely(FinalizeEviction(w.catalog, k).value, v.catalog) && SparesOthers(w.disk, v.disk, w.catalog, k)
    requires Pending(v.catalog, l)
    ensures Pending(w.catalog, l) && (Recoverable(w, l) ==> Recoverable(v, l))
  {
    var fin := FinalizeEviction(w.catalog, k).value;
    assert TidyCatalog(w.catalog, sizes);
    hide Consistent, TidyCatalog, Rely, OwnFiles, SparesOthers, Pending, ClaimedPinned, FinalizeEviction, SubjectOf;
    RelyPendingBack(fin, v.catalog, l);
    FinalizeLess(w.catalog, k, l, sizes);
    FinalizeIndependent(w.catalog, k, l, sizes);
    RelyPinned(fin, v.catalog, l);
    if l.MaterializationClaim? && OwnFiles(w, l) {
      OtherRowsStay(w.catalog, v.catalog, k, l);
      OwnFilesStay(w, v, k, l, sizes);
    }
  }

  lemma OverOrPending(w: World, v: World, k: Claim, l: Claim, sizes: Sizes)
    requires TidyCatalog(w.catalog, sizes) && Pending(w.catalog, k) && FinalizeEviction(w.catalog, k).Some?
    requires Rely(FinalizeEviction(w.catalog, k).value, v.catalog) && Emptier(w.disk, v.disk)
    requires Cleared(w.disk, k) && Pending(w.catalog, l)
    ensures Pending(v.catalog, l) || Cleared(v.disk, l)
  {
    hide TidyCatalog, Rely, Pending, FinalizeEviction, Emptier, Cleared, SubjectOf;
    if SubjectOf(l) == SubjectOf(k) {
      SubjectDetermines(w.catalog, k, l, sizes);
      ClearedStays(w.disk, v.disk, k);
    } else {
      FinalizeIndependent(w.catalog, k, l, sizes);
      RelyPending(FinalizeEviction(w.catalog, k).value, v.catalog, l);
    }
  }

  lemma OtherRowsStay(c: Snapshot, r: Snapshot, k: Claim, l: Claim)
    requires FinalizeEviction(c, k).Some? && Rely(FinalizeEviction(c, k).value, r)
    requires l.MaterializationClaim? && SubjectOf(l) != SubjectOf(k)
    ensures forall m | m in c.materializations && m.state == Deleting && m.id == l.materializationId ::
      m in r.materializations
  {
    FinalizeTakes(c, k);
    hide FinalizeEviction, Mild;
  }

  lemma ClaimResumes(worlds: seq<World>, n: nat, w: World, v: World, k: Claim, entries: set<string>,
        blobs: set<string>, sizes: Sizes)
    requires Consistent(w, sizes) && Pending(w.catalog, k) && !k.MaterializationClaim?
    requires entries <= EntriesUnder(k) && blobs <= BlobsUnder(k)
    requires SparesRun(worlds, n, w, entries, blobs, {})
    requires Rely(w.catalog, v.catalog) && Spares(w.disk, v.disk, w.catalog, entries, blobs, {})
    ensures ResumesRun(worlds, n, w) && Resumes(w, v)
  {
    hide Consistent, Rely, Spares, SparesOthers, Pending, Resumes, EntriesUnder, BlobsUnder;
    forall i | n <= i < |worlds| ensures Resumes(w, worlds[i]) {
      SparesFewer(w.disk, worlds[i].disk, w.catalog, k, entries, blobs);
      DeletingResumes(w, worlds[i], k, sizes);
    }
    SparesFewer(w.disk, v.disk, w.catalog, k, entries, blobs);
    DeletingResumes(w, v, k, sizes);
  }

  /** A shrunken copy that is still deletable is still the claim's own. */
  lemma OwnFilesShrink(w: World, v: World, k: Claim)
    requires k.MaterializationClaim? && Pending(w.catalog, k) && OwnFiles(w, k) && Rely(w.catalog, v.catalog)
    requires StaysDeletable(w.disk, v.disk, k.materializationId, BlobIdentity(k.contentId, k.contentSize))
    ensures OwnFiles(v, k)
  {
    var m := SourceOf(w, k);
    assert m in v.catalog.materializations;
    hide MaterializationDeletable, Rely;
  }

  lemma CopyRunResumes(worlds: seq<World>, n: nat, w: World, k: Claim, sizes: Sizes)
    requires Consistent(w, sizes) && Pending(w.catalog, k) && k.MaterializationClaim?
    requires SparesRun(worlds, n, w, {}, {}, {k.materializationId})
    requires DeletableRun(worlds, n, w.disk, k.materializationId, BlobIdentity(k.contentId, k.contentSize))
    ensures ResumesRun(worlds, n, w)
  {
    hide Consistent, Rely, Spares, Pending, Resumes, StaysDeletable, OwnFiles;
    assert EntriesUnder(k) == {} && BlobsUnder(k) == {} && CopiesUnder(k) == {k.materializationId};
    forall i | n <= i < |worlds| ensures Resumes(w, worlds[i]) {
      if OwnFiles(w, k) { OwnFilesShrink(w, worlds[i], k); }
      DeletingResumes(w, worlds[i], k, sizes);
    }
  }

  lemma FinalizedRunResumes(worlds: seq<World>, n: nat, w: World, k: Claim, sizes: Sizes)
    requires Consistent(w, sizes) && Pending(w.catalog, k) && FinalizeEviction(w.catalog, k).Some?
    requires OutsideRun(worlds, n, w.disk, FinalizeEviction(w.catalog, k).value) && Cleared(w.disk, k)
    ensures ResumesRun(worlds, n, w)
  {
    hide Consistent, Rely, DiskRely, Pending, Resumes, FinalizeEviction, Cleared;
    forall i | n <= i < |worlds| ensures Resumes(w, worlds[i]) { FinalizedResumes(w, worlds[i], k, sizes); }
  }

  lemma CopyGoneResumes(w: World, v: World, k: Claim, sizes: Sizes)
    requires Consistent(w, sizes) && Pending(w.catalog, k) && k.MaterializationClaim? && Rely(w.catalog, v.catalog)
    requires Spares(w.disk, v.disk, w.catalog, {}, {}, {k.materializationId})
    requires DirectoryAt(v.disk.materializations, k.materializationId) == Absent
    ensures Resumes(w, v)
  {
    hide Consistent, Rely, Spares, Pending, Resumes;
    assert EntriesUnder(k) == {} && BlobsUnder(k) == {} && CopiesUnder(k) == {k.materializationId};
    DeletingResumes(w, v, k, sizes);
  }

  lemma ResumesRefl(worlds: seq<World>, w: World)
    ensures ResumesRun(worlds, |worlds|, w) && Resumes(w, w)
  {
  }

  /** Removing a copy's files in order keeps what is left deletable. */
  lemma FilesGo(dir: Directory, id: string, expected: BlobIdentity, blobs: Blobs, entries: map<string, Directory>)
    requires dir.Present? && MaterializationDeletable(dir, id, expected, blobs, entries)
    ensures MaterializationDeletable(dir.(children := dir.children - {CONTENT}), id, expected, blobs, entries)
    ensures MaterializationDeletable(dir.(children := dir.children - {CONTENT} - {MANIFEST}), id, expected,
      blobs, entries)
    ensures CONTENT !in dir.children ==>
      MaterializationDeletable(dir.(children := dir.children - {MANIFEST}), id, expected, blobs, entries)
    ensures MaterializationDeletable(Absent, id, expected, blobs, entries)
    ensures Shrinks(dir, dir.(children := dir.children - {CONTENT})) && Shrinks(dir, Absent)
    ensures Shrinks(dir, dir.(children := dir.children - {CONTENT} - {MANIFEST}))
    ensures Shrinks(dir, dir.(children := dir.children - {MANIFEST}))
  {
    hide EntryVerified;
    var less := dir.children - {CONTENT};
    assert less.Keys == dir.children.Keys - {CONTENT};
    assert (less - {MANIFEST}).Keys == less.Keys - {MANIFEST};
    assert (dir.children - {MANIFEST}).Keys == dir.children.Keys - {MANIFEST};
    assert dir.children.Keys <= {CONTENT, MANIFEST} ==> less - {MANIFEST} == map[];
  }

  /** The copy has these files throughout. */
  ghost predicate CopyRun(worlds: seq<World>, n: nat, was: Disk, id: string, dir: Directory) {
    forall i | n <= i < |worlds| ::
      && worlds[i].disk.blobs == was.blobs && worlds[i].disk.entries == was.entries
      && DirectoryAt(worlds[i].disk.materializations, id) == dir
  }

  lemma OutsideRunCopy(worlds: seq<World>, n: nat, was: Disk, d: Disk, c: Snapshot, id: string, dir: Directory)
    requires OutsideRun(worlds, n, d, c) && BeingDeleted(c, id) && d.blobs == was.blobs && d.entries == was.entries
    requires DirectoryAt(d.materializations, id) == dir
    ensures CopyRun(worlds, n, was, id, dir)
  {
    hide Rely, BeingDeleted;
  }

  lemma DeletableRunJoin(first: seq<World>, all: seq<World>, n: nat, was: Disk, d: Disk, id: string,
        dir: Directory, expected: BlobIdentity)
    requires first <= all && DeletableRun(first, n, was, id, expected) && CopyRun(all, |first|, d, id, dir)
    requires d.blobs == was.blobs && d.entries == was.entries
    requires MaterializationDeletable(dir, id, expected, was.blobs, was.entries)
    requires Shrinks(DirectoryAt(was.materializations, id), dir)
    ensures DeletableRun(all, n, was, id, expected)
  {
    hide MaterializationDeletable, Shrinks, DirectoryAt;
    forall i | n <= i < |all| ensures StaysDeletable(was, all[i].disk, id, expected) {
      if i < |first| { assert all[i] == first[i]; }
    }
  }

  // ----- Recovery, round by round -----

  /** A claim still pending can be carried out if it could before. */
  lemma RecoverableNow(was: World, w: World, k: Claim)
    requires Resumes(was, w) && Pending(w.catalog, k) && Recoverable(was, k)
    ensures !k.MaterializationClaim? ==> !ClaimedPinned(w.catalog, k)
    ensures k.MaterializationClaim? ==>
      MaterializationDeletable(DirectoryAt(w.disk.materializations, k.materializationId), k.materializationId,
        BlobIdentity(k.contentId, k.contentSize), w.disk.blobs, w.disk.entries)
  {
    hide Pending, MaterializationDeletable, ClaimedPinned;
    assert Recoverable(w, k);
  }

  lemma WorkedOffStep(was: Snapshot, c: Snapshot, claimed: Snapshot, r: Snapshot, claims: seq<Claim>, n: nat, ok: bool,
        d: Disk, sizes: Sizes)
    requires n < |claims| && WorkedOff(was, c, claims, n) && Pending(c, claims[n]) && Rely(c, claimed)
    requires Consistent(World(d, claimed), sizes)
    requires ok ==> FinalizeEviction(claimed, claims[n]).Some? && Rely(FinalizeEviction(claimed, claims[n]).value, r)
    requires !ok ==> Rely(c, r)
    ensures WorkedOff(was, r, claims, if ok then n + 1 else n)
  {
    if ok {
      hide Rely, TidyCatalog, Pending, FinalizeEviction, WorkedOff;
      WorkedOffNext(was, c, claimed, r, claims, n, sizes);
    } else {
      hide Rely, TidyCatalog, Pending, FinalizeEviction;
      forall k | Pending(r, k) ensures Pending(c, k) { RelyPendingBack(c, r, k); }
    }
  }

  /** A list worked off leaves nothing pending if it was short, or if there was no
      more than it can hold. */
  lemma ListWorkedOff(was: Snapshot, c: Snapshot, listed: seq<Claim>, limit: int)
    requires DistinctSubjects(listed) && AllPendingIn(was, listed) && |listed| <= limit
    requires (|listed| < limit ==> Covers(was, listed))
    requires WorkedOff(was, c, listed, |listed|) && WellLinked(c)
    ensures |listed| < limit || Few(was, limit) ==> Settled(c)
  {
    hide Pending, WellLinked, Settled, Covers, Few, WorkedOff, DistinctSubjects;
    if |listed| == limit && Few(was, limit) { FullListCovers(was, listed); }
    if Covers(was, listed) { WorkedOffAll(was, c, listed); }
  }

  /** One round of at most `limit` claims uses up one of the rounds left. */
  lemma RoundDone(was: Snapshot, c: Snapshot, listed: seq<Claim>, limit: int, left: int)
    requires 1 <= limit && 1 <= left && Few(was, left * limit) && DistinctSubjects(listed) && AllPendingIn(was, listed)
    requires WorkedOff(was, c, listed, |listed|) && |listed| <= limit && (|listed| < limit ==> Settled(c))
    ensures Few(c, (left - 1) * limit)
  {
    hide Settled, Few, WorkedOff, DistinctSubjects, Pending;
    assert 0 <= (left - 1) * limit == left * limit - limit;
    if |listed| < limit { SettledCalm(c, (left - 1) * limit); } else { FewerLeft(was, c, listed, left * limit); }
  }

  lemma NothingLeft(c: Snapshot, listed: seq<Claim>, left: int, limit: int)
    requires WellLinked(c) && (Settled(c) || (left == 0 && Few(c, left * limit)))
    requires AllPendingIn(c, listed) && DistinctSubjects(listed)
    ensures listed == []
  {
    hide WellLinked, Settled, Few, Pending, DistinctSubjects;
    assert left == 0 ==> left * limit == 0;
    if !Settled(c) { FewNone(c); }
    SettledNothing(c);
    DistinctCount(listed, {});
  }

  /** The claim just granted is on no pinned entry, and is the only one if none was
      pending before. */
  lemma GrantedClaim(c: Snapshot, t: EvictionTarget, at: Time, r: Snapshot)
    requires WellLinked(c) && BeginEviction(c, t, at).Some? && Rely(BeginEviction(c, t, at).value.0, r)
    ensures var k := BeginEviction(c, t, at).value.1;
      && !ClaimedPinned(r, k) && (k.MaterializationClaim? ==> t.MaterializationEviction?)
      && (Settled(c) ==> OnlySubject(r, SubjectOf(k)))
  {
    var (b, k) := BeginEviction(c, t, at).value;
    GrantedNotPinned(c, t, at);
    RelyPinned(b, r, k);
    assert k.MaterializationClaim? ==> t.MaterializationEviction?;
    if Settled(c) {
      BeginOnly(c, t, at);
      hide BeginEviction, WellLinked, Rely, Pending;
      forall l | Pending(r, l) ensures SubjectOf(l) == SubjectOf(k) { RelyPendingBack(b, r, l); }
    }
  }

  lemma GrantedNotPinned(c: Snapshot, t: EvictionTarget, at: Time)
    requires WellLinked(c) && BeginEviction(c, t, at).Some?
    ensures var (r, k) := BeginEviction(c, t, at).value; !ClaimedPinned(r, k)
  {
    if t.EntryEviction? {
      var e := EntryRow(c.entries, t.entryId).value;
      forall f | f in c.entries && f.id == e.id ensures f == e { EntryUnique(c, f, e); }
    }
  }

  // ----- Freed bytes -----

  /** What has left the catalog has left the disk. */
  ghost predicate Frees(a: World, b: World) {
    && Emptier(a.disk, b.disk)
    && (forall id | id in BlobIds(a.catalog) && id !in BlobIds(b.catalog) :: id !in b.disk.blobs)
    && (forall id | id in EntryIds(a.catalog) && id !in EntryIds(b.catalog) :: id !in b.disk.entries)
    && (forall id | id in MaterializationIds(a.catalog) && id !in MaterializationIds(b.catalog) ::
         DirectoryAt(b.disk.materializations, id).Absent?)
  }

  lemma FreesTrans(a: World, b: World, c: World)
    requires Frees(a, b) && Frees(b, c)
    ensures Frees(a, c)
  {
    hide BlobIds, EntryIds, MaterializationIds, DirectoryAt;
  }

  lemma FreesSame(a: World, b: World)
    requires Emptier(a.disk, b.disk) && BlobIds(a.catalog) == BlobIds(b.catalog)
    requires EntryIds(a.catalog) == EntryIds(b.catalog)
    requires MaterializationIds(a.catalog) == MaterializationIds(b.catalog)
    ensures Frees(a, b)
  {
    hide BlobIds, EntryIds, MaterializationIds, DirectoryAt;
  }

  lemma SameKeys<T(!new)>(a: seq<T>, b: seq<T>, key: T -> string)
    requires |a| == |b| && forall i | 0 <= i < |a| :: key(a[i]) == key(b[i])
    ensures Keys(a, key) == Keys(b, key)
  {
    forall x | x in a ensures key(x) in Keys(b, key) {
      var i :| 0 <= i < |a| && a[i] == x;
      assert b[i] in b;
    }
    forall x | x in b ensures key(x) in Keys(a, key) {
      var i :| 0 <= i < |b| && b[i] == x;
      assert a[i] in a;
    }
  }

  lemma FreesRely(d: Disk, e: Disk, c: Snapshot, r: Snapshot)
    requires Rely(c, r) && Emptier(d, e)
    ensures Frees(World(d, c), World(e, r))
  {
    SameKeys(c.entries, r.entries, EntryKey);
    SameKeys(c.materializations, r.materializations, MaterializationKey);
    hide Rely, Emptier;
    FreesSame(World(d, c), World(e, r));
  }

  lemma FreesBegin(d: Disk, c: Snapshot, t: EvictionTarget, at: Time)
    requires BeginEviction(c, t, at).Some?
    ensures Frees(World(d, c), World(d, BeginEviction(c, t, at).value.0))
  {
    var r := BeginEviction(c, t, at).value.0;
    SameKeys(c.blobs, r.blobs, BlobKey);
    SameKeys(c.entries, r.entries, EntryKey);
    SameKeys(c.materializations, r.materializations, MaterializationKey);
    hide BeginEviction;
    FreesSame(World(d, c), World(d, r));
  }

  /** Finalizing a claim whose bytes are gone. */
  lemma FreesFinalize(d: Disk, c: Snapshot, k: Claim)
    requires FinalizeEviction(c, k).Some? && Cleared(d, k)
    ensures Frees(World(d, c), World(d, FinalizeEviction(c, k).value))
  {
    var r := FinalizeEviction(c, k).value;
    FinalizeTakes(c, k);
    hide FinalizeEviction, Claimed;
    forall id | id in BlobIds(c) && id !in BlobIds(r) ensures id !in d.blobs {
      var b :| b in c.blobs && BlobKey(b) == id;
      assert b in r.blobs ==> BlobKey(b) in BlobIds(r);
    }
    forall id | id in EntryIds(c) && id !in EntryIds(r) ensures id !in d.entries {
      var e :| e in c.entries && EntryKey(e) == id;
      assert e in r.entries ==> EntryKey(e) in EntryIds(r);
    }
    forall id | id in MaterializationIds(c) && id !in MaterializationIds(r)
      ensures DirectoryAt(d.materializations, id).Absent?
    {
      var m :| m in c.materializations && MaterializationKey(m) == id;
      assert m in r.materializations ==> MaterializationKey(m) in MaterializationIds(r);
    }
  }
}
