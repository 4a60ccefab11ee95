/** Admitting records that are not in the catalog yet. */
module CacheAdmission {
  import opened Wrappers
  import opened Keyed
  import opened CacheRecords
  import opened CacheLeases
  import opened CacheAccounting
  import opened CacheEviction
  import opened CacheEffects
  import opened CacheCandidates
  import opened CachePlanner
  import opened CachePlanning

  datatype Admission = Admission(blob: Option<Blob>, entry: Option<Entry>, materialization: Option<Materialization>)

  /** An entry with an optional new blob, or a materialization alone. */
  predicate WellShaped(a: Admission) {
    || (a.entry.Some? && a.materialization.None?)
    || (a.materialization.Some? && a.blob.None? && a.entry.None?)
  }

  function Pin(e: Entry): Entry { e.(pinned := true) }

  /** Pins the entries on one blob. */
  ghost function PinSharing(entries: seq<Entry>, blobId: string): seq<Entry> {
    seq(|entries|, i requires 0 <= i < |entries| => if entries[i].blobId == blobId then Pin(entries[i]) else entries[i])
  }

  /** The snapshot the admission is planned on: the incoming records are added
      and pinned, and the entries already on a deduplicated blob are pinned. */
  ghost function Planned(s: Snapshot, a: Admission): Snapshot
    requires WellShaped(a)
  {
    if a.materialization.Some? then
      s.(materializations := s.materializations + [a.materialization.value.(pinned := true)])
    else if a.blob.Some? then
      s.(blobs := s.blobs + [a.blob.value], entries := s.entries + [Pin(a.entry.value)])
    else
      s.(entries := PinSharing(s.entries, a.entry.value.blobId) + [Pin(a.entry.value)])
  }

  /** The catalog with the incoming records as they will be committed. */
  ghost function Admitted(s: Snapshot, a: Admission): Snapshot
    requires WellShaped(a)
  {
    if a.materialization.Some? then s.(materializations := s.materializations + [a.materialization.value])
    else s.(blobs := s.blobs + (if a.blob.Some? then [a.blob.value] else []), entries := s.entries + [a.entry.value])
  }

  /** The in-place pinning loop. */
  method PinEntries(entries: seq<Entry>, blobId: string) returns (r: seq<Entry>)
    ensures r == PinSharing(entries, blobId)
  {
    var working := new Entry[|entries|](i requires 0 <= i < |entries| => entries[i]);
    for i := 0 to working.Length
      invariant forall j | 0 <= j < i :: working[j] == PinSharing(entries, blobId)[j]
      invariant forall j | i <= j < |entries| :: working[j] == entries[j]
    {
      if working[i].blobId == blobId {
        working[i] := Pin(working[i]);
      }
    }
    r := working[..];
  }

  datatype AdmissionError = Misshapen | Plan(error: PlanError)

  method PlanAdmission(s: Snapshot, a: Admission, limits: Limits, mgr: Option<LeaseManager>)
    returns (r: Result<EvictionPlan, AdmissionError>, ghost picks: seq<Candidate>)
    ensures r.Ok? ==>
      WellShaped(a) && ValidSnapshot(Planned(s, a)) && Countable(Planned(s, a))
        && Reports(r.value, Planned(s, a), mgr, limits, picks)
    ensures r == Err(Misshapen) <==> !WellShaped(a)
    ensures WellShaped(a) ==>
      (r.Ok? <==>
        ValidSnapshot(Planned(s, a)) && ValidLimits(limits) && (s.leases == [] || mgr.Some?)
          && GlobalBytes(Planned(s, a)) <= MAX_INT64)
  {
    picks := [];
    var working := s;
    if a.entry.Some? && a.materialization.None? {
      if a.blob.Some? {
        working := working.(blobs := working.blobs + [a.blob.value]);
      } else {
        var pinned := PinEntries(working.entries, a.entry.value.blobId);
        working := working.(entries := pinned);
      }
      working := working.(entries := working.entries + [Pin(a.entry.value)]);
    } else if a.materialization.Some? && a.blob.None? && a.entry.None? {
      working := working.(materializations := working.materializations + [a.materialization.value.(pinned := true)]);
    } else {
      return Err(Misshapen), picks;
    }
    var plan, chosen := PlanEvictions(working, limits, mgr);
    picks := chosen;
    if plan.Err? { return Err(Plan(plan.error)), picks; }
    r := Ok(plan.value);
  }

  // ----- Pins do not count -----

  /** Same tables up to pins. */
  ghost predicate SameButPins(s: Snapshot, r: Snapshot) {
    && s.blobs == r.blobs
    && |s.entries| == |r.entries| && (forall i | 0 <= i < |s.entries| :: Pin(s.entries[i]) == Pin(r.entries[i]))
    && |s.materializations| == |r.materializations|
    && (forall i | 0 <= i < |s.materializations| ::
      s.materializations[i].(pinned := true) == r.materializations[i].(pinned := true))
  }

  lemma PlannedIsAdmittedButPins(s: Snapshot, a: Admission)
    requires WellShaped(a)
    ensures SameButPins(Planned(s, a), Admitted(s, a))
  {
  }

  lemma {:induction false} BytesIgnorePins(a: seq<Materialization>, b: seq<Materialization>, ids: set<string>)
    requires |a| == |b| && forall i | 0 <= i < |a| :: a[i].(pinned := true) == b[i].(pinned := true)
    ensures Bytes(a, MaterializationKey, MaterializationSize, ids)
      == Bytes(b, MaterializationKey, MaterializationSize, ids)
  {
    if a != [] {
      var n := |a| - 1;
      assert a[n].(pinned := true).id == a[n].id && a[n].(pinned := true).size == a[n].size;
      assert b[n].(pinned := true).id == b[n].id && b[n].(pinned := true).size == b[n].size;
      BytesIgnorePins(a[..n], b[..n], ids);
    }
  }

  lemma SamePools(s: Snapshot, r: Snapshot)
    requires SameButPins(s, r)
    ensures forall id :: Owners(s, id) == Owners(r, id)
    ensures WorkspaceIds(s) == WorkspaceIds(r) && MaterializationIds(s) == MaterializationIds(r)
    ensures forall ws :: OwnedMaterializations(s, ws) == OwnedMaterializations(r, ws)
  {
    TwinEntries(s, r);
    TwinEntries(r, s);
    TwinMaterializations(s, r);
    TwinMaterializations(r, s);
    hide SameButPins;
    forall ws ensures OwnedMaterializations(s, ws) == OwnedMaterializations(r, ws) {
      OwnedWithin(s, r, ws);
      OwnedWithin(r, s, ws);
    }
  }

  ghost predicate EntryTwins(s: Snapshot, r: Snapshot) {
    forall e | e in s.entries :: exists f | f in r.entries ::
      f.id == e.id && f.blobId == e.blobId && f.workspaceId == e.workspaceId
  }

  ghost predicate MaterializationTwins(s: Snapshot, r: Snapshot) {
    forall m | m in s.materializations :: exists n | n in r.materializations :: n.id == m.id && n.entryId == m.entryId
  }

  lemma TwinEntries(s: Snapshot, r: Snapshot)
    requires SameButPins(s, r)
    ensures EntryTwins(s, r)
  {
    forall e | e in s.entries
      ensures exists f | f in r.entries :: f.id == e.id && f.blobId == e.blobId && f.workspaceId == e.workspaceId
    {
      var i :| 0 <= i < |s.entries| && s.entries[i] == e;
      assert Pin(s.entries[i]) == Pin(r.entries[i]);
      var f := r.entries[i];
      assert f in r.entries && Pin(f).id == f.id && Pin(f).blobId == f.blobId && Pin(f).workspaceId == f.workspaceId;
    }
  }

  lemma TwinMaterializations(s: Snapshot, r: Snapshot)
    requires SameButPins(s, r)
    ensures MaterializationTwins(s, r)
  {
    forall m | m in s.materializations
      ensures exists n | n in r.materializations :: n.id == m.id && n.entryId == m.entryId
    {
      var i :| 0 <= i < |s.materializations| && s.materializations[i] == m;
      var n := r.materializations[i];
      assert n in r.materializations && n.(pinned := true).id == n.id && n.(pinned := true).entryId == n.entryId;
    }
  }

  lemma OwnedWithin(s: Snapshot, r: Snapshot, ws: set<string>)
    requires EntryTwins(s, r) && MaterializationTwins(s, r)
    ensures OwnedMaterializations(s, ws) <= OwnedMaterializations(r, ws)
  {
    forall id | id in OwnedMaterializations(s, ws) ensures id in OwnedMaterializations(r, ws) {
      var m, e :| m in s.materializations && e in s.entries && e.id == m.entryId && e.workspaceId in ws && m.id == id;
      var n :| n in r.materializations && n.id == m.id && n.entryId == m.entryId;
      var f :| f in r.entries && f.id == e.id && f.blobId == e.blobId && f.workspaceId == e.workspaceId;
    }
  }

  /** Limits are met with pins exactly when they are met without. */
  lemma FitsIgnoresPins(s: Snapshot, r: Snapshot, limits: Limits)
    requires SameButPins(s, r)
    ensures Fits(s, limits) <==> Fits(r, limits)
  {
    SamePools(s, r);
    forall ids ensures MaterializationBytes(s, ids) == MaterializationBytes(r, ids) {
      BytesIgnorePins(s.materializations, r.materializations, ids);
    }
    forall w ensures OwnedBlobs(s, {w}) == OwnedBlobs(r, {w}) {}
  }

  /** A satisfied plan without targets means the catalog plus the incoming
      records fit every limit as they are. */
  lemma AdmissionFits(s: Snapshot, a: Admission, limits: Limits, mgr: Option<LeaseManager>,
        plan: EvictionPlan, picks: seq<Candidate>)
    requires WellShaped(a) && Countable(Planned(s, a)) && Reports(plan, Planned(s, a), mgr, limits, picks)
    requires plan.satisfied && plan.targets == []
    ensures Fits(Admitted(s, a), limits)
  {
    AfterIsRemoval(Planned(s, a), mgr, picks);
    PlannedIsAdmittedButPins(s, a);
    FitsIgnoresPins(Planned(s, a), Admitted(s, a), limits);
  }

  // ----- What an admission never evicts -----

  lemma PinnedEntryKept(p: Snapshot, mgr: Option<LeaseManager>, limits: Limits, picks: seq<Candidate>, e: Entry)
    requires ValidSnapshot(p) && Greedy(p, mgr, limits, picks) && e in p.entries && e.pinned
    ensures EntryEviction(e.id) !in Listed(p, mgr, picks) && BlobEviction(e.blobId) !in Listed(p, mgr, picks)
  {
    var gone := Listed(p, mgr, picks);
    PlanIsSafe(p, mgr, limits, picks);
    EntryUnique(p, e);
    RemoveAllMembers(p, gone);
    assert e in RemoveAll(p, gone).entries;
  }

  lemma PinnedMaterializationKept(p: Snapshot, mgr: Option<LeaseManager>, limits: Limits,
        picks: seq<Candidate>, m: Materialization)
    requires ValidSnapshot(p) && Greedy(p, mgr, limits, picks) && m in p.materializations && m.pinned
    ensures var gone := Listed(p, mgr, picks);
      MaterializationEviction(m.id) !in gone && EntryEviction(m.entryId) !in gone
        && BlobEviction(m.baselineBlobId) !in gone
  {
    var gone := Listed(p, mgr, picks);
    PlanIsSafe(p, mgr, limits, picks);
    hide Greedy, Listed;
    forall x | x in p.materializations && x.id == m.id
      ensures x == m
    {
      KeyInjective(p.materializations, MaterializationKey, x, m);
    }
    RemoveAllMembers(p, gone);
    assert m in RemoveAll(p, gone).materializations;
  }

  /** An admission plan never targets the incoming records, the blob they rest
      on, the entries already on a deduplicated blob, or the source entry and
      baseline blob of an incoming materialization. */
  lemma AdmissionIsSafe(s: Snapshot, a: Admission, limits: Limits, mgr: Option<LeaseManager>, picks: seq<Candidate>)
    requires WellShaped(a) && ValidSnapshot(Planned(s, a)) && Greedy(Planned(s, a), mgr, limits, picks)
    ensures var gone := Listed(Planned(s, a), mgr, picks);
      && (a.entry.Some? ==> EntryEviction(a.entry.value.id) !in gone && BlobEviction(a.entry.value.blobId) !in gone)
      && (a.entry.Some? && a.blob.None? ==>
        forall e | e in s.entries && e.blobId == a.entry.value.blobId :: EntryEviction(e.id) !in gone)
      && (a.materialization.Some? ==>
            && MaterializationEviction(a.materialization.value.id) !in gone
            && EntryEviction(a.materialization.value.entryId) !in gone
            && BlobEviction(a.materialization.value.baselineBlobId) !in gone)
  {
    var p := Planned(s, a);
    hide Greedy, ValidSnapshot, Listed;
    if a.materialization.Some? {
      PinnedMaterializationKept(p, mgr, limits, picks, a.materialization.value.(pinned := true));
    } else {
      PinnedEntryKept(p, mgr, limits, picks, Pin(a.entry.value));
      if a.blob.None? {
        forall e | e in s.entries && e.blobId == a.entry.value.blobId
          ensures EntryEviction(e.id) !in Listed(p, mgr, picks)
        {
          var i :| 0 <= i < |s.entries| && s.entries[i] == e;
          assert p.entries[i] == Pin(e);
          PinnedEntryKept(p, mgr, limits, picks, Pin(e));
        }
      }
    }
  }
}
