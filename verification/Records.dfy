/** The cache domain: blobs, entries, materializations, references and leases,
    and what makes a snapshot of them well formed. */
module CacheRecords {
  import opened Wrappers
  import opened Keyed

  const MAX_INT64: int := 0x7fff_ffff_ffff_ffff

  /** The source's int64: every value stored in one is proved to fit. */
  type Int64 = x: int | -0x8000_0000_0000_0000 <= x <= 0x7fff_ffff_ffff_ffff

  /** Nanoseconds since the zero time; 0 is the zero time itself. */
  type Time = int

  function Later(a: Time, b: Time): Time { if a < b then b else a }

  const CONTENT_ID_WIDTH := 64
  const RANDOM_ID_WIDTH := 32
  const MAX_ENDPOINT_ID_BYTES := 4096
  const MAX_CANONICAL_PATH_BYTES := 1048576
  const MAX_CANONICAL_FINGERPRINT := 65536

  datatype BlobState = BlobPublished | BlobDeleting
  datatype EntryFreshness = Fresh | Stale | Unknown
  datatype Policy = LRU | Ephemeral | PinnedOffline
  datatype MaterializationState = Clean | Dirty | Orphaned | Deleting
  datatype FingerprintStrength = Weak | Strong
  datatype Fingerprint = Fingerprint(strength: FingerprintStrength, canonical: string)

  datatype Blob = Blob(id: string, size: Int64, state: BlobState, createdAt: Time, lastAccessAt: Time)

  datatype Entry = Entry(
    id: string, endpointId: string, path: string, fingerprint: Fingerprint, freshness: EntryFreshness,
    policy: Policy, workspaceId: string, pinned: bool, blobId: string, createdAt: Time, lastAccessAt: Time)

  datatype Materialization = Materialization(
    id: string, entryId: string, baselineBlobId: string, currentBlobId: string, size: Int64,
    state: MaterializationState, pinned: bool, createdAt: Time, lastAccessAt: Time)

  datatype Target = BlobTarget(blobId: string) | MaterializationTarget(materializationId: string)

  datatype OwnerKind = Preview | Edit | Open | Upload

  /** `EvictionClaim` stands for the reserved workspace owner whose identifier is
      a fixed prefix followed by an entry identifier. */
  datatype ReferenceOwner = Workspace(name: string) | Handoff(kind: OwnerKind,
    ownerId: string) | EvictionClaim(entryId: string)

  datatype Reference = Reference(id: string, owner: ReferenceOwner, target: Target, createdAt: Time)

  datatype ProcessIdentity = ProcessIdentity(pid: int, birthId: string)
  datatype LeaseState = Active | Released

  datatype Lease = Lease(
    id: string, kind: OwnerKind, ownerId: string, daemonId: string, target: Target, state: LeaseState,
    heartbeatAt: Time, expiresAt: Time, graceUntil: Time, releasedAt: Time, process: Option<ProcessIdentity>)

  datatype Snapshot = Snapshot(
    blobs: seq<Blob>, entries: seq<Entry>, materializations: seq<Materialization>,
    references: seq<Reference>, leases: seq<Lease>)

  function BlobKey(b: Blob): string { b.id }
  function BlobSize(b: Blob): int { b.size }
  function EntryKey(e: Entry): string { e.id }
  function MaterializationKey(m: Materialization): string { m.id }
  function MaterializationSize(m: Materialization): int { m.size }
  function ReferenceKey(r: Reference): string { r.id }
  function LeaseKey(l: Lease): string { l.id }

  ghost function BlobIds(s: Snapshot): set<string> { Keys(s.blobs, BlobKey) }
  ghost function EntryIds(s: Snapshot): set<string> { Keys(s.entries, EntryKey) }
  ghost function MaterializationIds(s: Snapshot): set<string> { Keys(s.materializations, MaterializationKey) }

  predicate ValidHexId(id: string, width: nat) {
    |id| == width && forall i | 0 <= i < |id| :: '0' <= id[i] <= '9' || 'a' <= id[i] <= 'f'
  }

  predicate ValidAccessTimes(createdAt: Time, lastAccessAt: Time) {
    createdAt != 0 && lastAccessAt != 0 && createdAt <= lastAccessAt
  }

  predicate ValidBlob(b: Blob) {
    ValidHexId(b.id, CONTENT_ID_WIDTH) && 0 <= b.size && ValidAccessTimes(b.createdAt, b.lastAccessAt)
  }

  predicate ValidEntry(e: Entry) {
    && ValidHexId(e.id, CONTENT_ID_WIDTH)
    && 1 <= |e.endpointId| <= MAX_ENDPOINT_ID_BYTES
    && 1 <= |e.path| <= MAX_CANONICAL_PATH_BYTES
    && 1 <= |e.fingerprint.canonical| <= MAX_CANONICAL_FINGERPRINT
    && (e.policy == PinnedOffline ==> e.pinned)
    && e.workspaceId != ""
    && ValidHexId(e.blobId, CONTENT_ID_WIDTH)
    && ValidAccessTimes(e.createdAt, e.lastAccessAt)
  }

  predicate ValidMaterialization(m: Materialization) {
    && ValidHexId(m.id, RANDOM_ID_WIDTH)
    && ValidHexId(m.entryId, CONTENT_ID_WIDTH)
    && ValidHexId(m.baselineBlobId, CONTENT_ID_WIDTH)
    && ValidHexId(m.currentBlobId, CONTENT_ID_WIDTH)
    && 0 <= m.size
    && ValidAccessTimes(m.createdAt, m.lastAccessAt)
  }

  predicate ValidTarget(t: Target) {
    match t
    case BlobTarget(id) => ValidHexId(id, CONTENT_ID_WIDTH)
    case MaterializationTarget(id) => ValidHexId(id, RANDOM_ID_WIDTH)
  }

  predicate ValidReference(r: Reference) {
    && ValidHexId(r.id, RANDOM_ID_WIDTH)
    && (match r.owner
        case Workspace(name) => name != ""
        case Handoff(_, ownerId) => ownerId != ""
        case EvictionClaim(_) => true)
    && ValidTarget(r.target)
    && r.createdAt != 0
  }

  predicate ValidLease(l: Lease) {
    && ValidHexId(l.id, RANDOM_ID_WIDTH)
    && l.ownerId != "" && l.daemonId != ""
    && ValidTarget(l.target)
    && (l.state == Active <==> l.releasedAt == 0)
    && l.heartbeatAt != 0 && l.heartbeatAt <= l.expiresAt <= l.graceUntil
    && (l.process.Some? ==> 0 < l.process.value.pid && l.process.value.birthId != "")
  }

  ghost predicate TargetExists(s: Snapshot, t: Target) {
    match t
    case BlobTarget(id) => id in BlobIds(s)
    case MaterializationTarget(id) => id in MaterializationIds(s)
  }

  /** Keys are unique and no entry or materialization dangles. */
  ghost predicate WellLinked(s: Snapshot) {
    && Distinct(s.blobs, BlobKey)
    && Distinct(s.entries, EntryKey)
    && Distinct(s.materializations, MaterializationKey)
    && (forall e | e in s.entries :: e.blobId in BlobIds(s))
    && (forall m | m in s.materializations :: m.entryId in EntryIds(s) && m.baselineBlobId in BlobIds(s))
    && (forall b | b in s.blobs :: 0 <= b.size)
    && (forall m | m in s.materializations :: 0 <= m.size)
  }

  ghost predicate ValidSnapshot(s: Snapshot) {
    && (forall b | b in s.blobs :: ValidBlob(b))
    && (forall e | e in s.entries :: ValidEntry(e))
    && (forall m | m in s.materializations :: ValidMaterialization(m))
    && (forall r | r in s.references :: ValidReference(r) && TargetExists(s, r.target))
    && (forall l | l in s.leases :: ValidLease(l) && TargetExists(s, l.target))
    && Distinct(s.references, ReferenceKey)
    && Distinct(s.leases, LeaseKey)
    && WellLinked(s)
  }

  /** The scan shared by the five loops of snapshot validation: every record
      passes its own check and no key repeats. */
  method ScanRecords<T(!new)>(items: seq<T>, key: T -> string, check: T -> bool) returns (ok: bool, seen: set<string>)
    ensures ok <==> (forall x | x in items :: check(x)) && Distinct(items, key)
    ensures ok ==> seen == Keys(items, key)
  {
    seen := {};
    for i := 0 to |items|
      invariant forall x | x in items[..i] :: check(x)
      invariant Distinct(items[..i], key)
      invariant seen == Keys(items[..i], key)
    {
      var x := items[i];
      assert items[i] in items;
      if !check(x) { return false, seen; }
      assert items[..i + 1] == items[..i] + [x];
      Snoc(items[..i], key, x);
      if key(x) in seen {
        assert items == items[..i + 1] + items[i + 1..];
        return false, seen;
      }
      seen := seen + {key(x)};
    }
    assert items[..|items|] == items;
    ok := true;
  }

  predicate TargetIn(t: Target, blobs: set<string>, materializations: set<string>) {
    match t
    case BlobTarget(id) => id in blobs
    case MaterializationTarget(id) => id in materializations
  }

  method Validate(s: Snapshot) returns (ok: bool)
    ensures ok <==> ValidSnapshot(s)
  {
    var blobsOk, blobs := ScanRecords(s.blobs, BlobKey, ValidBlob);
    if !blobsOk { return false; }
    var entriesOk, entries := ScanRecords(s.entries, EntryKey,
      (e: Entry) => ValidEntry(e) && e.blobId in blobs);
    if !entriesOk { return false; }
    var materializationsOk, materializations := ScanRecords(s.materializations, MaterializationKey,
      (m: Materialization) => ValidMaterialization(m) && m.entryId in entries && m.baselineBlobId in blobs);
    if !materializationsOk { return false; }
    var referencesOk, _ := ScanRecords(s.references, ReferenceKey,
      (r: Reference) => ValidReference(r) && TargetIn(r.target, blobs, materializations));
    if !referencesOk { return false; }
    var leasesOk, _ := ScanRecords(s.leases, LeaseKey,
      (l: Lease) => ValidLease(l) && TargetIn(l.target, blobs, materializations));
    ok := leasesOk;
  }
}
