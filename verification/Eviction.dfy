/** What may be evicted and what evicting it does: the rules behind the quota
    planner, stated on snapshots. */
module CacheEviction {
  import opened Wrappers
  import opened Keyed
  import opened CacheRecords
  import opened CacheLeases
  import opened CacheAccounting

  datatype EvictionTarget =
    | BlobEviction(blobId: string)
    | EntryEviction(entryId: string)
    | MaterializationEviction(materializationId: string)

  datatype Limits = Limits(globalBytes: Int64, globalEntries: int, workspaceBytes: Int64, maxCandidates: int)

  predicate ValidLimits(limits: Limits) {
    0 <= limits.globalBytes && 0 <= limits.globalEntries && 0 <= limits.workspaceBytes && 0 < limits.maxCandidates
  }

  // ----- Protection -----

  /** A lease stops protecting its target only when a manager says so. */
  predicate IsReclaimable(mgr: Option<LeaseManager>, l: Lease) {
    mgr.Some? && Classify(mgr.value, l) == Reclaimable
  }

  /** Everything references and unreclaimable leases point at. */
  ghost function Guarded(s: Snapshot, mgr: Option<LeaseManager>): set<Target> {
    (set r | r in s.references :: r.target) + (set l | l in s.leases && !IsReclaimable(mgr, l) :: l.target)
  }

  ghost predicate BlobGuarded(s: Snapshot, mgr: Option<LeaseManager>, id: string) {
    BlobTarget(id) in Guarded(s, mgr)
  }

  ghost predicate MaterializationGuarded(s: Snapshot, mgr: Option<LeaseManager>, id: string) {
    MaterializationTarget(id) in Guarded(s, mgr)
  }

  /** How many entries name a blob. */
  function EntryCount(entries: seq<Entry>, blobId: string): nat {
    if entries == [] then 0
    else EntryCount(entries[..|entries| - 1], blobId) + (if entries[|entries| - 1].blobId == blobId then 1 else 0)
  }

  predicate Materialized(s: Snapshot, entryId: string) {
    exists m | m in s.materializations :: m.entryId == entryId
  }

  predicate IsBaseline(s: Snapshot, blobId: string) {
    exists m | m in s.materializations :: m.baselineBlobId == blobId
  }

  ghost predicate BlobReachable(s: Snapshot, blobId: string) {
    (exists e | e in s.entries :: e.blobId == blobId) || IsBaseline(s, blobId)
  }

  ghost predicate EntryEvictable(s: Snapshot, mgr: Option<LeaseManager>, allowShared: bool, e: Entry) {
    && !e.pinned
    && (allowShared || EntryCount(s.entries, e.blobId) <= 1)
    && !Materialized(s, e.id)
    && !BlobGuarded(s, mgr, e.blobId)
  }

  ghost predicate MaterializationEvictable(s: Snapshot, mgr: Option<LeaseManager>, m: Materialization) {
    !m.pinned && m.state == Clean && !MaterializationGuarded(s, mgr, m.id)
  }

  ghost predicate BlobEvictable(s: Snapshot, mgr: Option<LeaseManager>, b: Blob) {
    && b.state == BlobPublished
    && !BlobReachable(s, b.id)
    && !BlobGuarded(s, mgr, b.id)
  }

  ghost predicate Eligible(s: Snapshot, mgr: Option<LeaseManager>, allowShared: bool, t: EvictionTarget) {
    match t
    case EntryEviction(id) => exists e | e in s.entries :: e.id == id && EntryEvictable(s, mgr, allowShared, e)
    case MaterializationEviction(id) => exists m | m in s.materializations ::
      m.id == id && MaterializationEvictable(s, mgr, m)
    case BlobEviction(id) => exists b | b in s.blobs :: b.id == id && BlobEvictable(s, mgr, b)
  }

  // ----- Removal -----

  ghost function Remove(s: Snapshot, t: EvictionTarget): Snapshot {
    match t
    case BlobEviction(id) => s.(blobs := Without(s.blobs, BlobKey, id))
    case EntryEviction(id) => s.(entries := Without(s.entries, EntryKey, id))
    case MaterializationEviction(id) => s.(materializations := Without(s.materializations, MaterializationKey, id))
  }

  ghost function RemoveAll(s: Snapshot, targets: seq<EvictionTarget>): Snapshot {
    if targets == [] then s else Remove(RemoveAll(s, targets[..|targets| - 1]), targets[|targets| - 1])
  }

  /** The targets one victim stands for: an entry takes its blob along when the
      blob is then unreachable and nothing guards it. */
  ghost function Consequences(s: Snapshot, mgr: Option<LeaseManager>, t: EvictionTarget): seq<EvictionTarget> {
    if t.EntryEviction? && exists e :: TakesBlob(s, mgr, t.entryId, e) then
      var e :| TakesBlob(s, mgr, t.entryId, e);
      [t, BlobEviction(e.blobId)]
    else [t]
  }

  ghost predicate TakesBlob(s: Snapshot, mgr: Option<LeaseManager>, entryId: string, e: Entry) {
    && e in s.entries && e.id == entryId
    && !BlobReachable(Remove(s, EntryEviction(entryId)), e.blobId)
    && !BlobGuarded(s, mgr, e.blobId)
  }

  ghost function Evict(s: Snapshot, mgr: Option<LeaseManager>, t: EvictionTarget): Snapshot {
    RemoveAll(s, Consequences(s, mgr, t))
  }

  lemma {:induction false} RemoveAllAppend(s: Snapshot, a: seq<EvictionTarget>, b: seq<EvictionTarget>)
    ensures RemoveAll(s, a + b) == RemoveAll(RemoveAll(s, a), b)
  {
    if b == [] {
      assert a + b == a;
    } else {
      var init := b[..|b| - 1];
      RemoveAllAppend(s, a, init);
      assert (a + b)[..|a + b| - 1] == a + init;
    }
  }

  /** What is left after removing targets: exactly the records not listed. */
  lemma {:induction false} RemoveAllMembers(s: Snapshot, targets: seq<EvictionTarget>)
    ensures var r := RemoveAll(s, targets);
      && r.references == s.references && r.leases == s.leases
      && (forall b :: b in r.blobs <==> b in s.blobs && BlobEviction(b.id) !in targets)
      && (forall e :: e in r.entries <==> e in s.entries && EntryEviction(e.id) !in targets)
      && (forall m :: m in r.materializations <==> m in s.materializations && MaterializationEviction(m.id) !in targets)
  {
    if targets != [] {
      var init, last := targets[..|targets| - 1], targets[|targets| - 1];
      RemoveAllMembers(s, init);
      RemoveMembers(RemoveAll(s, init), last);
      assert targets == init + [last];
    }
  }

  lemma RemoveMembers(s: Snapshot, t: EvictionTarget)
    ensures var r := Remove(s, t);
      && r.references == s.references && r.leases == s.leases
      && (forall b :: b in r.blobs <==> b in s.blobs && BlobEviction(b.id) != t)
      && (forall e :: e in r.entries <==> e in s.entries && EntryEviction(e.id) != t)
      && (forall m :: m in r.materializations <==> m in s.materializations && MaterializationEviction(m.id) != t)
  {
    match t
    case BlobEviction(id) => WithoutMembers(s.blobs, BlobKey, id);
    case EntryEviction(id) => WithoutMembers(s.entries, EntryKey, id);
    case MaterializationEviction(id) => WithoutMembers(s.materializations, MaterializationKey, id);
  }

  lemma RemoveDistinct(s: Snapshot, t: EvictionTarget)
    requires Distinct(s.blobs, BlobKey) && Distinct(s.entries, EntryKey)
    requires Distinct(s.materializations, MaterializationKey)
    ensures var r := Remove(s, t);
      Distinct(r.blobs, BlobKey) && Distinct(r.entries, EntryKey) && Distinct(r.materializations, MaterializationKey)
  {
    match t
    case BlobEviction(id) => WithoutDistinct(s.blobs, BlobKey, id);
    case EntryEviction(id) => WithoutDistinct(s.entries, EntryKey, id);
    case MaterializationEviction(id) => WithoutDistinct(s.materializations, MaterializationKey, id);
  }

  // ----- What planning keeps -----

  /** Links hold, and everything guarded exists. Only reclaimable leases may
      point at nothing. */
  ghost predicate Sound(s: Snapshot, mgr: Option<LeaseManager>) {
    WellLinked(s) && forall t | t in Guarded(s, mgr) :: TargetExists(s, t)
  }

  lemma ValidIsSound(s: Snapshot, mgr: Option<LeaseManager>)
    requires ValidSnapshot(s)
    ensures Sound(s, mgr)
  {
  }

  /** Nothing that stays refers to the record. */
  ghost predicate Unneeded(s: Snapshot, mgr: Option<LeaseManager>, t: EvictionTarget) {
    match t
    case BlobEviction(id) => !BlobReachable(s, id) && !BlobGuarded(s, mgr, id)
    case EntryEviction(id) => !Materialized(s, id)
    case MaterializationEviction(id) => !MaterializationGuarded(s, mgr, id)
  }

  lemma RemoveKeys(s: Snapshot, t: EvictionTarget)
    ensures BlobIds(Remove(s, t)) == BlobIds(s) - (if t.BlobEviction? then {t.blobId} else {})
    ensures EntryIds(Remove(s, t)) == EntryIds(s) - (if t.EntryEviction? then {t.entryId} else {})
    ensures MaterializationIds(Remove(s, t))
      == MaterializationIds(s) - (if t.MaterializationEviction? then {t.materializationId} else {})
  {
    match t
    case BlobEviction(id) => WithoutKeys(s.blobs, BlobKey, id);
    case EntryEviction(id) => WithoutKeys(s.entries, EntryKey, id);
    case MaterializationEviction(id) => WithoutKeys(s.materializations, MaterializationKey, id);
  }

  lemma RemoveKeepsLinks(s: Snapshot, mgr: Option<LeaseManager>, t: EvictionTarget)
    requires WellLinked(s) && Unneeded(s, mgr, t)
    ensures WellLinked(Remove(s, t))
  {
    RemoveMembers(s, t);
    RemoveDistinct(s, t);
    RemoveKeys(s, t);
    hide Remove, BlobIds, EntryIds, MaterializationIds, Distinct;
  }

  lemma RemoveKeepsSound(s: Snapshot, mgr: Option<LeaseManager>, t: EvictionTarget)
    requires Sound(s, mgr) && Unneeded(s, mgr, t)
    ensures Sound(Remove(s, t), mgr) && Guarded(Remove(s, t), mgr) == Guarded(s, mgr)
  {
    RemoveKeepsLinks(s, mgr, t);
    RemoveMembers(s, t);
    RemoveKeys(s, t);
    hide Remove, BlobIds, EntryIds, MaterializationIds, WellLinked;
    assert Guarded(Remove(s, t), mgr) == Guarded(s, mgr);
  }

  /** An entry goes together with its blob exactly when nothing else holds the blob. */
  lemma EntryConsequences(s: Snapshot, mgr: Option<LeaseManager>, e: Entry)
    requires WellLinked(s) && e in s.entries && !BlobGuarded(s, mgr, e.blobId)
    ensures Consequences(s, mgr, EntryEviction(e.id)) ==
      if BlobReachable(Remove(s, EntryEviction(e.id)), e.blobId) then [EntryEviction(e.id)]
      else [EntryEviction(e.id), BlobEviction(e.blobId)]
  {
    forall x | x in s.entries && x.id == e.id ensures x == e { KeyInjective(s.entries, EntryKey, x, e); }
    if !BlobReachable(Remove(s, EntryEviction(e.id)), e.blobId) {
      assert TakesBlob(s, mgr, e.id, e);
    }
  }

  lemma RemoveAllOne(s: Snapshot, t: EvictionTarget)
    ensures RemoveAll(s, [t]) == Remove(s, t)
  {
    assert [t][..0] == [];
  }

  lemma RemoveAllTwo(s: Snapshot, t: EvictionTarget, u: EvictionTarget)
    ensures RemoveAll(s, [t, u]) == Remove(Remove(s, t), u)
  {
    RemoveAllOne(s, t);
    assert [t, u][..1] == [t];
  }

  /** Removing an eligible victim, with what it takes along, keeps every
      surviving entry's blob, every surviving materialization's entry and
      baseline blob, and every guarded target. */
  lemma EvictKeepsSound(s: Snapshot, mgr: Option<LeaseManager>, t: EvictionTarget)
    requires Sound(s, mgr) && Eligible(s, mgr, true, t)
    ensures Sound(Evict(s, mgr, t), mgr)
  {
    RemoveAllOne(s, t);
    RemoveKeepsSound(s, mgr, t);
    if t.EntryEviction? {
      var e :| e in s.entries && e.id == t.entryId && EntryEvictable(s, mgr, true, e);
      EntryConsequences(s, mgr, e);
      if !BlobReachable(Remove(s, t), e.blobId) {
        var u := BlobEviction(e.blobId);
        RemoveAllTwo(s, t, u);
        RemoveKeepsSound(Remove(s, t), mgr, u);
      }
    }
  }

  /** Victims stay eligible whether or not shared entries are allowed. */
  lemma EligibleRelax(s: Snapshot, mgr: Option<LeaseManager>, allowShared: bool, t: EvictionTarget)
    requires Eligible(s, mgr, allowShared, t)
    ensures Eligible(s, mgr, true, t)
  {
  }
}
