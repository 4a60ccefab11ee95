/** The catalog's transactions that claim, list and finalize evictions, publish
    entries and hand out materializations. Each is atomic: it either refuses or
    yields the next table contents. */
module CacheCatalog {
  import opened Wrappers
  import opened Keyed
  import opened CacheRecords
  import opened CacheEviction

  /** A durable eviction claim. A shared entry claim leaves the blob alone. */
  datatype Claim =
    | MaterializationClaim(materializationId: string, contentId: string, contentSize: Int64)
    | EntryClaim(entryId: string, blobId: string, blobSize: Int64, shared: bool)
    | BlobClaim(blobId: string, blobSize: Int64)

  predicate Referenced(c: Snapshot, t: Target) {
    exists r | r in c.references :: r.target == t
  }

  predicate Leased(c: Snapshot, t: Target) {
    exists l | l in c.leases :: l.target == t && l.state != Released
  }

  predicate Claimed(c: Snapshot, entryId: string, blobId: string) {
    exists r | r in c.references :: r.owner == EvictionClaim(entryId) && r.target == BlobTarget(blobId)
  }

  /** Stands for the identifier derived from an entry identifier by hashing. */
  function ClaimReferenceId(entryId: string): string {
    if |entryId| >= RANDOM_ID_WIDTH then entryId[..RANDOM_ID_WIDTH] else entryId
  }

  function SetBlobState(blobs: seq<Blob>, id: string, state: BlobState): seq<Blob> {
    seq(|blobs|, i requires 0 <= i < |blobs| => if blobs[i].id == id then blobs[i].(state := state) else blobs[i])
  }

  function SetMaterializationState(ms: seq<Materialization>, id: string,
        state: MaterializationState): seq<Materialization> {
    seq(|ms|, i requires 0 <= i < |ms| => if ms[i].id == id then ms[i].(state := state) else ms[i])
  }

  predicate PublishedBlob(c: Snapshot, id: string) {
    exists b | b in c.blobs :: b.id == id && b.state == BlobPublished
  }

  predicate DeletingBlob(c: Snapshot, id: string) {
    exists b | b in c.blobs :: b.id == id && b.state == BlobDeleting
  }

  function BlobRow(blobs: seq<Blob>, id: string): (r: Option<Blob>)
    ensures r.Some? ==> r.value in blobs && r.value.id == id
    ensures r.None? ==> forall b | b in blobs :: b.id != id
  {
    if blobs == [] then None
    else if blobs[|blobs| - 1].id == id then Some(blobs[|blobs| - 1])
    else BlobRow(blobs[..|blobs| - 1], id)
  }

  function EntryRow(entries: seq<Entry>, id: string): (r: Option<Entry>)
    ensures r.Some? ==> r.value in entries && r.value.id == id
    ensures r.None? ==> forall e | e in entries :: e.id != id
  {
    if entries == [] then None
    else if entries[|entries| - 1].id == id then Some(entries[|entries| - 1])
    else EntryRow(entries[..|entries| - 1], id)
  }

  function MaterializationRow(ms: seq<Materialization>, id: string): (r: Option<Materialization>)
    ensures r.Some? ==> r.value in ms && r.value.id == id
    ensures r.None? ==> forall m | m in ms :: m.id != id
  {
    if ms == [] then None
    else if ms[|ms| - 1].id == id then Some(ms[|ms| - 1])
    else MaterializationRow(ms[..|ms| - 1], id)
  }

  // ----- Claiming -----

  predicate EntryClaimable(c: Snapshot, e: Entry) {
    && !e.pinned
    && PublishedBlob(c, e.blobId)
    && !Materialized(c, e.id)
    && !Referenced(c, BlobTarget(e.blobId))
    && !Leased(c, BlobTarget(e.blobId))
  }

  /** Claims a target, or refuses one that is protected or gone. */
  function BeginEviction(c: Snapshot, t: EvictionTarget, at: Time): Option<(Snapshot, Claim)> {
    match t
    case MaterializationEviction(id) =>
      var row := MaterializationRow(c.materializations, id);
      if row.None? || row.value.state != Clean || row.value.pinned
         || Referenced(c, MaterializationTarget(id)) || Leased(c, MaterializationTarget(id)) then None
      else Some((c.(materializations := SetMaterializationState(c.materializations, id, Deleting)),
                 MaterializationClaim(id, row.value.currentBlobId, row.value.size)))
    case EntryEviction(id) =>
      var row := EntryRow(c.entries, id);
      if row.None? || !EntryClaimable(c, row.value) then None
      else
        var e := row.value;
        var b := BlobRow(c.blobs, e.blobId);
        if b.None? then None
        else if EntryCount(c.entries, e.blobId) == 1 then
          if IsBaseline(c, e.blobId) then None
          else Some((c.(blobs := SetBlobState(c.blobs, e.blobId, BlobDeleting)),
            EntryClaim(id, e.blobId, b.value.size, false)))
        else if exists r | r in c.references :: r.id == ClaimReferenceId(id) then None
        else
          var claim := Reference(ClaimReferenceId(id), EvictionClaim(id), BlobTarget(e.blobId), at);
          Some((c.(references := c.references + [claim]), EntryClaim(id, e.blobId, b.value.size, true)))
    case BlobEviction(id) =>
      var b := BlobRow(c.blobs, id);
      if b.None? || b.value.state != BlobPublished || (exists e | e in c.entries :: e.blobId == id) || IsBaseline(c, id)
         || Referenced(c, BlobTarget(id)) || Leased(c, BlobTarget(id)) then None
      else Some((c.(blobs := SetBlobState(c.blobs, id, BlobDeleting)), BlobClaim(id, b.value.size)))
  }

  // ----- Finalizing -----

  function KeepLeases(leases: seq<Lease>, t: Target): seq<Lease> {
    if leases == [] then []
    else
      var rest := KeepLeases(leases[..|leases| - 1], t);
      var last := leases[|leases| - 1];
      if last.target == t && last.state == Released then rest else rest + [last]
  }

  function DropClaim(references: seq<Reference>, entryId: string, blobId: string): seq<Reference> {
    if references == [] then []
    else
      var rest := DropClaim(references[..|references| - 1], entryId, blobId);
      var last := references[|references| - 1];
      if last.owner == EvictionClaim(entryId) && last.target == BlobTarget(blobId) then rest else rest + [last]
  }

  predicate AnyLease(leases: seq<Lease>, t: Target) {
    exists l | l in leases :: l.target == t
  }

  /** Removes a blob row under a deleting claim once nothing holds it. */
  function FinalizeBlob(c: Snapshot, blobId: string, size: Int64): Option<Snapshot> {
    var leases := KeepLeases(c.leases, BlobTarget(blobId));
    var b := BlobRow(c.blobs, blobId);
    if b.None? || b.value.state != BlobDeleting || b.value.size != size
      || (exists e | e in c.entries :: e.blobId == blobId)
       || IsBaseline(c, blobId) || Referenced(c, BlobTarget(blobId)) || AnyLease(leases, BlobTarget(blobId)) then None
    else Some(c.(blobs := Without(c.blobs, BlobKey, blobId), leases := leases))
  }

  function FinalizeEviction(c: Snapshot, claim: Claim): Option<Snapshot> {
    match claim
    case MaterializationClaim(id, contentId, size) =>
      var leases := KeepLeases(c.leases, MaterializationTarget(id));
      var row := MaterializationRow(c.materializations, id);
      if row.None? || row.value.state != Deleting || row.value.currentBlobId != contentId || row.value.size != size
         || Referenced(c, MaterializationTarget(id)) || AnyLease(leases, MaterializationTarget(id)) then None
      else Some(c.(materializations := Without(c.materializations, MaterializationKey, id), leases := leases))
    case EntryClaim(id, blobId, size, shared) =>
      var row := EntryRow(c.entries, id);
      if row.None? || row.value.blobId != blobId || row.value.pinned || Materialized(c, id) then None
      else if shared then
        if !Claimed(c, id, blobId) then None
        else Some(c.(entries := Without(c.entries, EntryKey, id), references := DropClaim(c.references, id, blobId)))
      else if !DeletingBlob(c, blobId) then None
      else FinalizeBlob(c.(entries := Without(c.entries, EntryKey, id)), blobId, size)
    case BlobClaim(blobId, size) => FinalizeBlob(c, blobId, size)
  }

  // ----- Publishing and handing out -----

  function TouchBlobs(blobs: seq<Blob>, id: string, at: Time): seq<Blob> {
    seq(|blobs|, i requires 0 <= i < |blobs| => if blobs[i].id == id
      then blobs[i].(lastAccessAt := Later(blobs[i].lastAccessAt, at)) else blobs[i])
  }

  predicate SameIdentity(a: Entry, b: Entry) {
    a.endpointId == b.endpointId && a.path == b.path && a.fingerprint == b.fingerprint
      && a.workspaceId == b.workspaceId && a.blobId == b.blobId
  }

  function RefreshEntries(entries: seq<Entry>, e: Entry): seq<Entry> {
    seq(|entries|, i requires 0 <= i < |entries| =>
      if entries[i].id == e.id
      then entries[i].(freshness := e.freshness, policy := e.policy, pinned := e.pinned,
        lastAccessAt := Later(entries[i].lastAccessAt, e.lastAccessAt))
      else entries[i])
  }

  /** Inserts or refreshes a blob and its entry, refusing a deleting blob and any
      row of another identity. */
  function Publish(c: Snapshot, blob: Blob, entry: Entry): Option<Snapshot> {
    var b := BlobRow(c.blobs, blob.id);
    var e := EntryRow(c.entries, entry.id);
    if entry.blobId != blob.id || blob.state != BlobPublished || blob.size < 0 then None
    else if b.Some? && (b.value.size != blob.size || b.value.state != BlobPublished) then None
    else if e.Some? && !SameIdentity(e.value, entry) then None
    else
      var blobs := if b.Some? then TouchBlobs(c.blobs, blob.id, blob.lastAccessAt) else c.blobs + [blob];
      var entries := if e.Some? then RefreshEntries(c.entries, entry) else c.entries + [entry];
      Some(c.(blobs := blobs, entries := entries))
  }

  /** Makes a materialization reachable and leased, unless its entry is being evicted
      or one of the three identifiers is taken. */
  function PrepareHandoff(c: Snapshot, m: Materialization, reference: Reference, lease: Lease): Option<Snapshot> {
    var e := EntryRow(c.entries, m.entryId);
    if reference.target != MaterializationTarget(m.id) || lease.target != MaterializationTarget(m.id) || m.size < 0
       || reference.owner.EvictionClaim? || m.state == Deleting || lease.state != Active then None
    else if MaterializationRow(c.materializations, m.id).Some? then None
    else if (exists r | r in c.references :: r.id == reference.id) || (exists l | l in c.leases :: l.id == lease.id)
      then None
    else if e.None? || e.value.blobId != m.baselineBlobId || !PublishedBlob(c, m.baselineBlobId)
      || Claimed(c, m.entryId, m.baselineBlobId) then None
    else Some(c.(materializations := c.materializations + [m], references := c.references + [reference],
      leases := c.leases + [lease]))
  }

  // ----- Pending claims -----

  /** The claim is in force: its row is marked, or its reference stands. */
  predicate Pending(c: Snapshot, claim: Claim) {
    match claim
    case MaterializationClaim(id, contentId, size) =>
      exists m | m in c.materializations ::
        m.id == id && m.state == Deleting && m.currentBlobId == contentId && m.size == size
    case EntryClaim(id, blobId, size, shared) =>
      && (exists e | e in c.entries :: e.id == id && e.blobId == blobId)
      && (if shared then Claimed(c, id, blobId) && (exists b | b in c.blobs :: b.id == blobId && b.size == size)
          else exists b | b in c.blobs :: b.id == blobId && b.size == size && b.state == BlobDeleting)
    case BlobClaim(blobId, size) =>
      && (exists b | b in c.blobs :: b.id == blobId && b.size == size && b.state == BlobDeleting)
      && forall e | e in c.entries :: e.blobId != blobId
  }

  /** Nothing is being evicted. */
  ghost predicate Settled(c: Snapshot) {
    && (forall b | b in c.blobs :: b.state == BlobPublished)
    && (forall e | e in c.entries :: !Claimed(c, e.id, e.blobId))
    && (forall m | m in c.materializations :: m.state != Deleting)
  }

  /** The row a claim is about; pending claims on different rows do not meet. */
  datatype Subject = MaterializationSubject(id: string) | BlobSubject(id: string) | EntrySubject(id: string)

  function SubjectOf(k: Claim): Subject {
    match k
    case MaterializationClaim(id, _, _) => MaterializationSubject(id)
    case EntryClaim(id, blobId, _, shared) => if shared then EntrySubject(id) else BlobSubject(blobId)
    case BlobClaim(blobId, _) => BlobSubject(blobId)
  }

  ghost predicate DistinctSubjects(claims: seq<Claim>) {
    forall i, j | 0 <= i < j < |claims| :: SubjectOf(claims[i]) != SubjectOf(claims[j])
  }

  /** Every claim is pending and about one of the given rows. */
  ghost predicate Lists(c: Snapshot, claims: seq<Claim>, subjects: set<Subject>) {
    DistinctSubjects(claims) && forall k | k in claims :: Pending(c, k) && SubjectOf(k) in subjects
  }

  lemma ListsMore(c: Snapshot, claims: seq<Claim>, subjects: set<Subject>, k: Claim)
    requires Lists(c, claims, subjects) && Pending(c, k) && SubjectOf(k) !in subjects
    ensures Lists(c, claims + [k], subjects + {SubjectOf(k)})
  {
    forall i | 0 <= i < |claims| ensures SubjectOf(claims[i]) != SubjectOf(k) { assert claims[i] in claims; }
  }

  method PendingMaterializations(c: Snapshot, limit: nat) returns (claims: seq<Claim>)
    requires WellLinked(c)
    ensures |claims| <= limit && Lists(c, claims, set m | m in c.materializations :: MaterializationSubject(m.id))
    ensures |claims| < limit ==>
      forall m | m in c.materializations && m.state == Deleting ::
        MaterializationClaim(m.id, m.currentBlobId, m.size) in claims
  {
    claims := [];
    ghost var subjects: set<Subject> := {};
    for i := 0 to |c.materializations|
      invariant |claims| <= limit && Lists(c, claims, subjects)
      invariant subjects == set j | 0 <= j < i :: MaterializationSubject(c.materializations[j].id)
      invariant |claims| < limit ==> forall j | 0 <= j < i && c.materializations[j].state == Deleting ::
        MaterializationClaim(c.materializations[j].id, c.materializations[j].currentBlobId,
          c.materializations[j].size) in claims
    {
      var m := c.materializations[i];
      assert m in c.materializations;
      assert MaterializationSubject(m.id) !in subjects by {
        assert forall j | 0 <= j < i :: MaterializationKey(c.materializations[j]) != MaterializationKey(m);
      }
      if |claims| < limit && m.state == Deleting {
        var k := MaterializationClaim(m.id, m.currentBlobId, m.size);
        ListsMore(c, claims, subjects, k);
        claims := claims + [k];
      }
      subjects := subjects + {MaterializationSubject(m.id)};
    }
    assert forall j | 0 <= j < |c.materializations| :: c.materializations[j] in c.materializations;
  }

  /** The entry on a blob, if any. */
  function EntryOn(entries: seq<Entry>, blobId: string): (r: Option<Entry>)
    ensures r.Some? ==> r.value in entries && r.value.blobId == blobId
    ensures r.None? ==> forall e | e in entries :: e.blobId != blobId
  {
    if entries == [] then None
    else if entries[|entries| - 1].blobId == blobId then Some(entries[|entries| - 1])
    else EntryOn(entries[..|entries| - 1], blobId)
  }

  function BlobPendingClaim(c: Snapshot, b: Blob): Claim {
    var e := EntryOn(c.entries, b.id);
    if e.Some? then EntryClaim(e.value.id, b.id, b.size, false) else BlobClaim(b.id, b.size)
  }

  method PendingBlobs(c: Snapshot, limit: nat) returns (claims: seq<Claim>)
    requires WellLinked(c)
    ensures |claims| <= limit && Lists(c, claims, set b | b in c.blobs :: BlobSubject(b.id))
    ensures |claims| < limit ==> forall b | b in c.blobs && b.state == BlobDeleting :: BlobPendingClaim(c, b) in claims
  {
    claims := [];
    ghost var subjects: set<Subject> := {};
    for i := 0 to |c.blobs|
      invariant |claims| <= limit && Lists(c, claims, subjects)
      invariant subjects == set j | 0 <= j < i :: BlobSubject(c.blobs[j].id)
      invariant |claims| < limit ==>
        forall j | 0 <= j < i && c.blobs[j].state == BlobDeleting :: BlobPendingClaim(c, c.blobs[j]) in claims
    {
      var b := c.blobs[i];
      assert b in c.blobs;
      assert BlobSubject(b.id) !in subjects by {
        assert forall j | 0 <= j < i :: BlobKey(c.blobs[j]) != BlobKey(b);
      }
      if |claims| < limit && b.state == BlobDeleting {
        ListsMore(c, claims, subjects, BlobPendingClaim(c, b));
        claims := claims + [BlobPendingClaim(c, b)];
      }
      subjects := subjects + {BlobSubject(b.id)};
    }
    assert forall j | 0 <= j < |c.blobs| :: c.blobs[j] in c.blobs;
  }

  ghost predicate ListedShared(claims: seq<Claim>, e: Entry) {
    exists k | k in claims :: k.EntryClaim? && k.entryId == e.id && k.blobId == e.blobId && k.shared
  }

  method PendingSharedEntries(c: Snapshot, limit: nat) returns (claims: seq<Claim>)
    requires WellLinked(c)
    ensures |claims| <= limit && Lists(c, claims, set e | e in c.entries :: EntrySubject(e.id))
    ensures |claims| < limit ==>
      forall e | e in c.entries && BlobRow(c.blobs, e.blobId).Some? && Claimed(c, e.id, e.blobId) ::
        ListedShared(claims, e)
  {
    claims := [];
    ghost var subjects: set<Subject> := {};
    hide BlobRow, Claimed, ListedShared;
    for i := 0 to |c.entries|
      invariant |claims| <= limit && Lists(c, claims, subjects)
      invariant subjects == set j | 0 <= j < i :: EntrySubject(c.entries[j].id)
      invariant |claims| < limit ==>
        forall j | 0 <= j < i && BlobRow(c.blobs, c.entries[j].blobId).Some?
          && Claimed(c, c.entries[j].id, c.entries[j].blobId) ::
        ListedShared(claims, c.entries[j])
    {
      var e := c.entries[i];
      assert e in c.entries;
      assert EntrySubject(e.id) !in subjects by {
        assert forall j | 0 <= j < i :: EntryKey(c.entries[j]) != EntryKey(e);
      }
      var b := BlobRow(c.blobs, e.blobId);
      if |claims| < limit && b.Some? && Claimed(c, e.id, e.blobId) {
        var k := EntryClaim(e.id, e.blobId, b.value.size, true);
        SharedGrows(claims, k, c.entries, e);
        ListsMore(c, claims, subjects, k);
        claims := claims + [k];
      }
      subjects := subjects + {EntrySubject(e.id)};
    }
    assert forall j | 0 <= j < |c.entries| :: c.entries[j] in c.entries;
  }

  lemma SharedGrows(claims: seq<Claim>, k: Claim, entries: seq<Entry>, e: Entry)
    requires k.EntryClaim? && k.entryId == e.id && k.blobId == e.blobId && k.shared
    ensures ListedShared(claims + [k], e)
    ensures forall x | x in entries && ListedShared(claims, x) :: ListedShared(claims + [k], x)
  {
    assert k in claims + [k];
    assert forall x | x in claims :: x in claims + [k];
  }

  lemma ListsJoin(c: Snapshot, a: seq<Claim>, s: set<Subject>, b: seq<Claim>, t: set<Subject>)
    requires Lists(c, a, s) && Lists(c, b, t) && s !! t
    ensures Lists(c, a + b, s + t)
  {
    forall i, j | 0 <= i < |a| && 0 <= j < |b|
      ensures SubjectOf(a[i]) != SubjectOf(b[j])
    {
      assert a[i] in a && b[j] in b;
    }
  }

  const MAX_PENDING := 256

  /** Lists up to `limit` pending claims: materializations, then blobs, then
      shared entries. An empty list means nothing is being evicted. */
  method ListPendingEvictions(c: Snapshot, limit: int) returns (r: Option<seq<Claim>>)
    requires WellLinked(c)
    ensures r.Some? <==> 0 < limit <= MAX_PENDING
    ensures r.Some? ==> |r.value| <= limit && DistinctSubjects(r.value) && forall k | k in r.value :: Pending(c, k)
    ensures r.Some? && |r.value| < limit ==> Covers(c, r.value)
    ensures r == Some([]) ==> Settled(c)
  {
    if limit <= 0 || MAX_PENDING < limit { return None; }
    ghost var ms := set m | m in c.materializations :: MaterializationSubject(m.id);
    ghost var bs := set b | b in c.blobs :: BlobSubject(b.id);
    ghost var es := set e | e in c.entries :: EntrySubject(e.id);
    var first := PendingMaterializations(c, limit);
    if |first| == limit { return Some(first); }
    var blobs := PendingBlobs(c, limit - |first|);
    ListsJoin(c, first, ms, blobs, bs);
    if |first + blobs| == limit { return Some(first + blobs); }
    var shared := PendingSharedEntries(c, limit - |first| - |blobs|);
    ListsJoin(c, first + blobs, ms + bs, shared, es);
    if |first + blobs + shared| < limit { CoversAll(c, first, blobs, shared); }
    if first + blobs + shared == [] { SettledWhenEmpty(c, first, blobs, shared); }
    r := Some(first + blobs + shared);
  }

  ghost predicate Listed(claims: seq<Claim>, s: Subject) { exists k | k in claims :: SubjectOf(k) == s }

  /** Every pending claim is about a row that is listed. */
  ghost predicate Covers(c: Snapshot, claims: seq<Claim>) {
    forall k | Pending(c, k) :: Listed(claims, SubjectOf(k))
  }

  lemma CoversAll(c: Snapshot, first: seq<Claim>, blobs: seq<Claim>, shared: seq<Claim>)
    requires WellLinked(c)
    requires forall m | m in c.materializations && m.state == Deleting ::
      MaterializationClaim(m.id, m.currentBlobId, m.size) in first
    requires forall b | b in c.blobs && b.state == BlobDeleting :: BlobPendingClaim(c, b) in blobs
    requires forall e | e in c.entries && BlobRow(c.blobs, e.blobId).Some? && Claimed(c, e.id, e.blobId) ::
      ListedShared(shared, e)
    ensures Covers(c, first + blobs + shared)
  {
    var all := first + blobs + shared;
    hide Claimed, WellLinked;
    forall k | Pending(c, k) ensures Listed(all, SubjectOf(k)) {
      match k
      case MaterializationClaim(id, contentId, size) => assert k in all;
      case BlobClaim(id, size) =>
        var b :| b in c.blobs && b.id == id && b.size == size && b.state == BlobDeleting;
        assert BlobPendingClaim(c, b) in all;
      case EntryClaim(id, blobId, size, isShared) =>
        if isShared {
          var e :| e in c.entries && e.id == id && e.blobId == blobId;
          assert ListedShared(shared, e);
          var l :| l in shared && l.EntryClaim? && l.entryId == e.id && l.blobId == e.blobId && l.shared;
          assert l in all;
        } else {
          var b :| b in c.blobs && b.id == blobId && b.size == size && b.state == BlobDeleting;
          assert BlobPendingClaim(c, b) in all;
        }
    }
  }

  lemma SettledWhenEmpty(c: Snapshot, first: seq<Claim>, blobs: seq<Claim>, shared: seq<Claim>)
    requires WellLinked(c) && first + blobs + shared == []
    requires forall m | m in c.materializations && m.state == Deleting ::
      MaterializationClaim(m.id, m.currentBlobId, m.size) in first
    requires forall b | b in c.blobs && b.state == BlobDeleting :: BlobPendingClaim(c, b) in blobs
    requires forall e | e in c.entries && BlobRow(c.blobs, e.blobId).Some? && Claimed(c, e.id, e.blobId) ::
      ListedShared(shared, e)
    ensures Settled(c)
  {
    assert |first| == 0 && |blobs| == 0 && |shared| == 0;
    forall e | e in c.entries ensures !Claimed(c, e.id, e.blobId) {
      assert e.blobId in BlobIds(c);
    }
  }
}
