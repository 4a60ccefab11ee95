/** The planner's candidate list: what protects records, which records may go,
    and the order in which they are tried. */
module CacheCandidates {
  import opened Wrappers
  import opened Keyed
  import opened CacheRecords
  import opened CacheLeases
  import opened CacheAccounting
  import opened CacheEviction

  // ----- Protection index -----

  datatype ProtectionIndex = ProtectionIndex(
    leasedBlobs: set<string>, leasedMaterializations: set<string>,
    referencedBlobs: set<string>, referencedMaterializations: set<string>,
    materializedEntries: set<string>, entriesByBlob: map<string, nat>)

  ghost function LeasedBlobs(s: Snapshot, mgr: Option<LeaseManager>): set<string> {
    set l | l in s.leases && !IsReclaimable(mgr, l) && l.target.BlobTarget? :: l.target.blobId
  }

  ghost function LeasedMaterializations(s: Snapshot, mgr: Option<LeaseManager>): set<string> {
    set l | l in s.leases && !IsReclaimable(mgr, l) && l.target.MaterializationTarget? :: l.target.materializationId
  }

  ghost function ReferencedBlobs(s: Snapshot): set<string> {
    set r | r in s.references && r.target.BlobTarget? :: r.target.blobId
  }

  ghost function ReferencedMaterializations(s: Snapshot): set<string> {
    set r | r in s.references && r.target.MaterializationTarget? :: r.target.materializationId
  }

  ghost predicate Inspected(index: ProtectionIndex, s: Snapshot, mgr: Option<LeaseManager>) {
    && index.leasedBlobs == LeasedBlobs(s, mgr)
    && index.leasedMaterializations == LeasedMaterializations(s, mgr)
    && index.referencedBlobs == ReferencedBlobs(s)
    && index.referencedMaterializations == ReferencedMaterializations(s)
    && (forall id :: id in index.materializedEntries <==> Materialized(s, id))
    && CountsEntries(index.entriesByBlob, s.entries)
  }

  ghost predicate CountsEntries(counts: map<string, nat>, entries: seq<Entry>) {
    && (forall id | id in counts :: counts[id] == EntryCount(entries, id) && 0 < counts[id])
    && (forall id | id !in counts :: EntryCount(entries, id) == 0)
  }

  function CountIn(counts: map<string, nat>, id: string): nat {
    if id in counts then counts[id] else 0
  }

  method CountEntries(entries: seq<Entry>) returns (counts: map<string, nat>)
    ensures CountsEntries(counts, entries)
  {
    counts := map[];
    for i := 0 to |entries|
      invariant CountsEntries(counts, entries[..i])
    {
      assert entries[..i + 1][..i] == entries[..i];
      counts := counts[entries[i].blobId := CountIn(counts, entries[i].blobId) + 1];
    }
    assert entries[..|entries|] == entries;
  }

  method InspectReferences(references: seq<Reference>) returns (blobs: set<string>, materializations: set<string>)
    ensures blobs == set r | r in references && r.target.BlobTarget? :: r.target.blobId
    ensures materializations == set r | r in references && r.target.MaterializationTarget? :: r.target.materializationId
  {
    blobs, materializations := {}, {};
    for i := 0 to |references|
      invariant blobs == set r | r in references[..i] && r.target.BlobTarget? :: r.target.blobId
      invariant materializations == set r | r in references[..i] && r.target.MaterializationTarget? ::
        r.target.materializationId
    {
      var r := references[i];
      assert references[..i + 1] == references[..i] + [r];
      if r.target.BlobTarget? {
        blobs := blobs + {r.target.blobId};
      } else {
        materializations := materializations + {r.target.materializationId};
      }
    }
    assert references[..|references|] == references;
  }

  method InspectLeases(leases: seq<Lease>, mgr: Option<LeaseManager>)
    returns (blobs: set<string>, materializations: set<string>)
    ensures blobs == set l | l in leases && !IsReclaimable(mgr, l) && l.target.BlobTarget? :: l.target.blobId
    ensures materializations == set l | l in leases && !IsReclaimable(mgr, l) && l.target.MaterializationTarget? ::
      l.target.materializationId
  {
    blobs, materializations := {}, {};
    for i := 0 to |leases|
      invariant blobs == set l | l in leases[..i] && !IsReclaimable(mgr, l) && l.target.BlobTarget? :: l.target.blobId
      invariant materializations == set l | l in leases[..i] && !IsReclaimable(mgr, l)
        && l.target.MaterializationTarget? :: l.target.materializationId
    {
      var l := leases[i];
      assert leases[..i + 1] == leases[..i] + [l];
      if !IsReclaimable(mgr, l) {
        if l.target.BlobTarget? {
          blobs := blobs + {l.target.blobId};
        } else {
          materializations := materializations + {l.target.materializationId};
        }
      }
    }
    assert leases[..|leases|] == leases;
  }

  method InspectProtections(s: Snapshot, mgr: Option<LeaseManager>) returns (index: ProtectionIndex)
    ensures Inspected(index, s, mgr)
  {
    var counts := CountEntries(s.entries);
    var materialized: set<string> := {};
    for i := 0 to |s.materializations|
      invariant forall id :: id in materialized <==> exists m | m in s.materializations[..i] :: m.entryId == id
    {
      assert s.materializations[..i + 1] == s.materializations[..i] + [s.materializations[i]];
      materialized := materialized + {s.materializations[i].entryId};
    }
    assert s.materializations[..|s.materializations|] == s.materializations;
    var referencedBlobs, referencedMaterializations := InspectReferences(s.references);
    var leasedBlobs, leasedMaterializations := InspectLeases(s.leases, mgr);
    index := ProtectionIndex(leasedBlobs, leasedMaterializations, referencedBlobs, referencedMaterializations,
      materialized, counts);
  }

  predicate TargetBlobProtected(index: ProtectionIndex, id: string) {
    id in index.leasedBlobs || id in index.referencedBlobs
  }

  lemma InspectedGuards(index: ProtectionIndex, s: Snapshot, mgr: Option<LeaseManager>)
    requires Inspected(index, s, mgr)
    ensures forall id :: TargetBlobProtected(index, id) <==> BlobGuarded(s, mgr, id)
    ensures forall id :: id in index.leasedMaterializations || id in index.referencedMaterializations <==>
      MaterializationGuarded(s, mgr, id)
  {
    forall id | BlobGuarded(s, mgr, id) ensures TargetBlobProtected(index, id) {
      if r :| r in s.references && r.target == BlobTarget(id) {
      } else {
        var l :| l in s.leases && !IsReclaimable(mgr, l) && l.target == BlobTarget(id);
      }
    }
    forall id | MaterializationGuarded(s, mgr, id)
      ensures id in index.leasedMaterializations || id in index.referencedMaterializations
    {
      if r :| r in s.references && r.target == MaterializationTarget(id) {
      } else {
        var l :| l in s.leases && !IsReclaimable(mgr, l) && l.target == MaterializationTarget(id);
      }
    }
  }

  lemma {:induction false} EntryCountZero(entries: seq<Entry>, id: string)
    ensures EntryCount(entries, id) == 0 <==> !exists e | e in entries :: e.blobId == id
  {
    if entries != [] {
      var init, last := entries[..|entries| - 1], entries[|entries| - 1];
      EntryCountZero(init, id);
      assert entries == init + [last];
    }
  }

  // ----- Candidates -----

  datatype Candidate = Candidate(target: EvictionTarget, lastAccess: Time)

  ghost function BlobTime(s: Snapshot, id: string): Time {
    if exists b :: b in s.blobs && b.id == id then (var b :| b in s.blobs && b.id == id; b.lastAccessAt) else 0
  }

  lemma BlobTimeOf(s: Snapshot, b: Blob)
    requires WellLinked(s) && b in s.blobs
    ensures BlobTime(s, b.id) == b.lastAccessAt
  {
    var x :| x in s.blobs && x.id == b.id && BlobTime(s, b.id) == x.lastAccessAt;
    KeyInjective(s.blobs, BlobKey, x, b);
  }

  /** An entry is as recent as the more recent of itself and its blob. */
  ghost function EntryCandidate(s: Snapshot, e: Entry): Candidate {
    Candidate(EntryEviction(e.id), Later(e.lastAccessAt, BlobTime(s, e.blobId)))
  }

  function MaterializationCandidate(m: Materialization): Candidate {
    Candidate(MaterializationEviction(m.id), m.lastAccessAt)
  }

  function BlobCandidate(b: Blob): Candidate {
    Candidate(BlobEviction(b.id), b.lastAccessAt)
  }

  ghost predicate IsCandidate(s: Snapshot, mgr: Option<LeaseManager>, allowShared: bool, c: Candidate) {
    match c.target
    case EntryEviction(_) => exists e | e in s.entries ::
      EntryEvictable(s, mgr, allowShared, e) && c == EntryCandidate(s, e)
    case MaterializationEviction(_) => exists m | m in s.materializations ::
      MaterializationEvictable(s, mgr, m) && c == MaterializationCandidate(m)
    case BlobEviction(_) => exists b | b in s.blobs :: BlobEvictable(s, mgr, b) && c == BlobCandidate(b)
  }

  /** Every eligible target has a candidate, and only those do. */
  lemma CandidateForEligible(s: Snapshot, mgr: Option<LeaseManager>, allowShared: bool, t: EvictionTarget)
    ensures Eligible(s, mgr, allowShared, t) <==> exists c :: IsCandidate(s, mgr, allowShared, c) && c.target == t
  {
    if Eligible(s, mgr, allowShared, t) {
      match t
      case EntryEviction(id) =>
        var e :| e in s.entries && e.id == id && EntryEvictable(s, mgr, allowShared, e);
        assert IsCandidate(s, mgr, allowShared, EntryCandidate(s, e));
      case MaterializationEviction(id) =>
        var m :| m in s.materializations && m.id == id && MaterializationEvictable(s, mgr, m);
        assert IsCandidate(s, mgr, allowShared, MaterializationCandidate(m));
      case BlobEviction(id) =>
        var b :| b in s.blobs && b.id == id && BlobEvictable(s, mgr, b);
        assert IsCandidate(s, mgr, allowShared, BlobCandidate(b));
    }
  }

  ghost predicate DistinctTargets(candidates: seq<Candidate>) {
    forall i, j | 0 <= i < j < |candidates| :: candidates[i].target != candidates[j].target
  }

  method BlobAccessTimes(s: Snapshot) returns (times: map<string, Time>)
    requires WellLinked(s)
    ensures forall b | b in s.blobs :: b.id in times && times[b.id] == BlobTime(s, b.id)
  {
    times := map[];
    for i := 0 to |s.blobs|
      invariant forall b | b in s.blobs[..i] :: b.id in times && times[b.id] == BlobTime(s, b.id)
    {
      assert s.blobs[..i + 1] == s.blobs[..i] + [s.blobs[i]];
      BlobTimeOf(s, s.blobs[i]);
      times := times[s.blobs[i].id := s.blobs[i].lastAccessAt];
    }
    assert s.blobs[..|s.blobs|] == s.blobs;
  }

  /** The candidates of a prefix of each table, in table order. */
  ghost function EntryList(s: Snapshot, mgr: Option<LeaseManager>, allowShared: bool, n: nat): seq<Candidate>
    requires n <= |s.entries|
  {
    if n == 0 then [] else
    EntryList(s, mgr, allowShared, n - 1) +
    (if EntryEvictable(s, mgr, allowShared, s.entries[n - 1]) then [EntryCandidate(s, s.entries[n - 1])] else [])
  }

  ghost function MaterializationList(s: Snapshot, mgr: Option<LeaseManager>, n: nat): seq<Candidate>
    requires n <= |s.materializations|
  {
    if n == 0 then [] else
    MaterializationList(s, mgr, n - 1) +
    (if MaterializationEvictable(s, mgr, s.materializations[n - 1])
      then [MaterializationCandidate(s.materializations[n - 1])] else [])
  }

  ghost function BlobList(s: Snapshot, mgr: Option<LeaseManager>, n: nat): seq<Candidate>
    requires n <= |s.blobs|
  {
    if n == 0 then [] else
    BlobList(s, mgr, n - 1) +
    (if BlobEvictable(s, mgr, s.blobs[n - 1]) then [BlobCandidate(s.blobs[n - 1])] else [])
  }

  ghost predicate FromEntries(s: Snapshot, mgr: Option<LeaseManager>, allowShared: bool, n: nat, c: Candidate)
    requires n <= |s.entries|
  {
    exists i | 0 <= i < n :: EntryEvictable(s, mgr, allowShared, s.entries[i]) && c == EntryCandidate(s, s.entries[i])
  }

  ghost predicate FromMaterializations(s: Snapshot, mgr: Option<LeaseManager>, n: nat, c: Candidate)
    requires n <= |s.materializations|
  {
    exists i | 0 <= i < n ::
      MaterializationEvictable(s, mgr, s.materializations[i]) && c == MaterializationCandidate(s.materializations[i])
  }

  ghost predicate FromBlobs(s: Snapshot, mgr: Option<LeaseManager>, n: nat, c: Candidate)
    requires n <= |s.blobs|
  {
    exists i | 0 <= i < n :: BlobEvictable(s, mgr, s.blobs[i]) && c == BlobCandidate(s.blobs[i])
  }

  lemma {:induction false} EntryListMembers(s: Snapshot, mgr: Option<LeaseManager>, allowShared: bool, n: nat)
    requires n <= |s.entries| && Distinct(s.entries, EntryKey)
    ensures forall c :: c in EntryList(s, mgr, allowShared, n) <==> FromEntries(s, mgr, allowShared, n, c)
    ensures DistinctTargets(EntryList(s, mgr, allowShared, n))
  {
    hide EntryEvictable;
    if 0 < n {
      EntryListMembers(s, mgr, allowShared, n - 1);
      forall c | c in EntryList(s, mgr, allowShared, n - 1) ensures c.target != EntryEviction(s.entries[n - 1].id) {
        var i :| 0 <= i < n - 1 && c == EntryCandidate(s, s.entries[i]);
        assert EntryKey(s.entries[i]) != EntryKey(s.entries[n - 1]);
      }
    }
  }

  lemma {:induction false} MaterializationListMembers(s: Snapshot, mgr: Option<LeaseManager>, n: nat)
    requires n <= |s.materializations| && Distinct(s.materializations, MaterializationKey)
    ensures forall c :: c in MaterializationList(s, mgr, n) <==> FromMaterializations(s, mgr, n, c)
    ensures DistinctTargets(MaterializationList(s, mgr, n))
  {
    hide MaterializationEvictable;
    if 0 < n {
      MaterializationListMembers(s, mgr, n - 1);
      forall c | c in MaterializationList(s, mgr, n - 1)
        ensures c.target != MaterializationEviction(s.materializations[n - 1].id)
      {
        var i :| 0 <= i < n - 1 && c == MaterializationCandidate(s.materializations[i]);
        assert MaterializationKey(s.materializations[i]) != MaterializationKey(s.materializations[n - 1]);
      }
    }
  }

  lemma {:induction false} BlobListMembers(s: Snapshot, mgr: Option<LeaseManager>, n: nat)
    requires n <= |s.blobs| && Distinct(s.blobs, BlobKey)
    ensures forall c :: c in BlobList(s, mgr, n) <==> FromBlobs(s, mgr, n, c)
    ensures DistinctTargets(BlobList(s, mgr, n))
  {
    hide BlobEvictable;
    if 0 < n {
      BlobListMembers(s, mgr, n - 1);
      forall c | c in BlobList(s, mgr, n - 1) ensures c.target != BlobEviction(s.blobs[n - 1].id) {
        var i :| 0 <= i < n - 1 && c == BlobCandidate(s.blobs[i]);
        assert BlobKey(s.blobs[i]) != BlobKey(s.blobs[n - 1]);
      }
    }
  }

  predicate EntryBlocked(index: ProtectionIndex, allowShared: bool, e: Entry) {
    || e.pinned
    || (CountIn(index.entriesByBlob, e.blobId) > 1 && !allowShared)
    || e.id in index.materializedEntries
    || TargetBlobProtected(index, e.blobId)
  }

  lemma EntryChecks(s: Snapshot, mgr: Option<LeaseManager>, index: ProtectionIndex, allowShared: bool, e: Entry)
    requires WellLinked(s) && Inspected(index, s, mgr) && e in s.entries
    ensures EntryBlocked(index, allowShared, e) <==> !EntryEvictable(s, mgr, allowShared, e)
    ensures exists b | b in s.blobs :: b.id == e.blobId
  {
    InspectedGuards(index, s, mgr);
    hide Guarded, BlobGuarded, LeasedBlobs, LeasedMaterializations, ReferencedBlobs, ReferencedMaterializations;
    assert CountIn(index.entriesByBlob, e.blobId) == EntryCount(s.entries, e.blobId);
    var b :| b in s.blobs && b.id == e.blobId;
  }

  method EntryBlob(entries: seq<Entry>, id: string) returns (blobId: Option<string>)
    ensures blobId.Some? ==> exists e | e in entries :: e.id == id && e.blobId == blobId.value
    ensures blobId.None? ==> forall e | e in entries :: e.id != id
  {
    for i := 0 to |entries|
      invariant forall e | e in entries[..i] :: e.id != id
    {
      if entries[i].id == id { return Some(entries[i].blobId); }
      assert entries[..i + 1] == entries[..i] + [entries[i]];
    }
    assert entries[..|entries|] == entries;
    return None;
  }

  lemma EntryUnique(s: Snapshot, e: Entry)
    requires WellLinked(s) && e in s.entries
    ensures forall x | x in s.entries && x.id == e.id :: x == e
  {
    forall x | x in s.entries && x.id == e.id ensures x == e { KeyInjective(s.entries, EntryKey, x, e); }
  }

  method EntryCandidates(s: Snapshot, ghost mgr: Option<LeaseManager>, index: ProtectionIndex, allowShared: bool)
    returns (candidates: seq<Candidate>)
    requires WellLinked(s) && Inspected(index, s, mgr)
    ensures candidates == EntryList(s, mgr, allowShared, |s.entries|)
  {
    hide WellLinked, Inspected, EntryEvictable;
    var times := BlobAccessTimes(s);
    candidates := [];
    for i := 0 to |s.entries|
      invariant candidates == EntryList(s, mgr, allowShared, i)
    {
      var e := s.entries[i];
      EntryChecks(s, mgr, index, allowShared, e);
      if !EntryBlocked(index, allowShared, e) {
        candidates := candidates + [Candidate(EntryEviction(e.id), Later(e.lastAccessAt, times[e.blobId]))];
      }
    }
  }

  method MaterializationCandidates(s: Snapshot, ghost mgr: Option<LeaseManager>, index: ProtectionIndex)
    returns (candidates: seq<Candidate>)
    requires Inspected(index, s, mgr)
    ensures candidates == MaterializationList(s, mgr, |s.materializations|)
  {
    InspectedGuards(index, s, mgr);
    candidates := [];
    for i := 0 to |s.materializations|
      invariant candidates == MaterializationList(s, mgr, i)
    {
      var m := s.materializations[i];
      if !(m.pinned || m.state != Clean || m.id in index.leasedMaterializations
        || m.id in index.referencedMaterializations) {
        candidates := candidates + [MaterializationCandidate(m)];
      }
    }
  }

  method BlobReachableFromMaterialization(id: string, materializations: seq<Materialization>) returns (reachable: bool)
    ensures reachable <==> exists m | m in materializations :: m.baselineBlobId == id
  {
    for i := 0 to |materializations|
      invariant forall m | m in materializations[..i] :: m.baselineBlobId != id
    {
      if materializations[i].baselineBlobId == id { return true; }
      assert materializations[..i + 1] == materializations[..i] + [materializations[i]];
    }
    assert materializations[..|materializations|] == materializations;
    return false;
  }

  method BlobCandidates(s: Snapshot, ghost mgr: Option<LeaseManager>, index: ProtectionIndex)
    returns (candidates: seq<Candidate>)
    requires Inspected(index, s, mgr)
    ensures candidates == BlobList(s, mgr, |s.blobs|)
  {
    InspectedGuards(index, s, mgr);
    candidates := [];
    for i := 0 to |s.blobs|
      invariant candidates == BlobList(s, mgr, i)
    {
      var b := s.blobs[i];
      EntryCountZero(s.entries, b.id);
      var baseline := BlobReachableFromMaterialization(b.id, s.materializations);
      if !(b.state != BlobPublished || CountIn(index.entriesByBlob, b.id) != 0 || baseline
        || TargetBlobProtected(index, b.id)) {
        candidates := candidates + [BlobCandidate(b)];
      }
    }
  }

  /** The enumeration finds every candidate once. */
  method EnumerateCandidates(s: Snapshot, ghost mgr: Option<LeaseManager>, index: ProtectionIndex, allowShared: bool)
    returns (candidates: seq<Candidate>)
    requires WellLinked(s) && Inspected(index, s, mgr)
    ensures forall c :: c in candidates <==> IsCandidate(s, mgr, allowShared, c)
    ensures DistinctTargets(candidates)
  {
    var entries := EntryCandidates(s, mgr, index, allowShared);
    var materializations := MaterializationCandidates(s, mgr, index);
    var blobs := BlobCandidates(s, mgr, index);
    candidates := entries + materializations + blobs;
    AllCandidates(s, mgr, allowShared);
  }

  lemma AllCandidates(s: Snapshot, mgr: Option<LeaseManager>, allowShared: bool)
    requires WellLinked(s)
    ensures var all := EntryList(s, mgr, allowShared, |s.entries|) + MaterializationList(s, mgr, |s.materializations|)
      + BlobList(s, mgr, |s.blobs|);
      (forall c :: c in all <==> IsCandidate(s, mgr, allowShared, c)) && DistinctTargets(all)
  {
    EntryListMembers(s, mgr, allowShared, |s.entries|);
    MaterializationListMembers(s, mgr, |s.materializations|);
    BlobListMembers(s, mgr, |s.blobs|);
    hide EntryEvictable, MaterializationEvictable, BlobEvictable, EntryList, MaterializationList, BlobList,
      DistinctTargets, WellLinked;
    var e, m, b := EntryList(s, mgr, allowShared, |s.entries|), MaterializationList(s, mgr, |s.materializations|),
      BlobList(s, mgr, |s.blobs|);
    assert forall c | c in e :: c.target.EntryEviction?;
    assert forall c | c in m :: c.target.MaterializationEviction?;
    assert forall c | c in b :: c.target.BlobEviction?;
    forall c ensures c in e + m + b <==> IsCandidate(s, mgr, allowShared, c) {
      CandidateSources(s, mgr, allowShared, c);
    }
    DistinctConcat(e, m);
    DistinctConcat(e + m, b);
  }

  lemma CandidateSources(s: Snapshot, mgr: Option<LeaseManager>, allowShared: bool, c: Candidate)
    ensures IsCandidate(s, mgr, allowShared, c) <==>
      || FromEntries(s, mgr, allowShared, |s.entries|, c)
      || FromMaterializations(s, mgr, |s.materializations|, c)
      || FromBlobs(s, mgr, |s.blobs|, c)
  {
    hide EntryEvictable, MaterializationEvictable, BlobEvictable;
  }

  lemma DistinctConcat(a: seq<Candidate>, b: seq<Candidate>)
    requires DistinctTargets(a) && DistinctTargets(b)
    requires forall c, d | c in a && d in b :: c.target != d.target
    ensures DistinctTargets(a + b)
  {
    var all := a + b;
    forall i, j | 0 <= i < j < |all| ensures all[i].target != all[j].target {
      if i < |a| <= j { assert all[i] in a && all[j] in b; }
    }
  }

  // ----- Order -----

  /** Byte-wise string order. */
  predicate StringLess(a: string, b: string) {
    if b == "" then false
    else if a == "" then true
    else if a[0] != b[0] then a[0] < b[0]
    else StringLess(a[1..], b[1..])
  }

  lemma {:induction false} StringLessOrder(a: string, b: string, c: string)
    ensures !StringLess(a, a)
    ensures StringLess(a, b) ==> !StringLess(b, a)
    ensures StringLess(a, b) && StringLess(b, c) ==> StringLess(a, c)
    ensures StringLess(a, b) || a == b || StringLess(b, a)
    decreases |a| + |b| + |c|
  {
    if a != "" && b != "" && c != "" {
      StringLessOrder(a[1..], b[1..], c[1..]);
    } else if a != "" && b != "" {
      StringLessOrder(a[1..], b[1..], c);
    } else if a != "" {
      StringLessOrder(a[1..], b, c);
    }
  }

  function Kind(t: EvictionTarget): string {
    match t
    case EntryEviction(_) => "entry"
    case MaterializationEviction(_) => "materialization"
    case BlobEviction(_) => "blob"
  }

  function Id(t: EvictionTarget): string {
    match t
    case EntryEviction(id) => id
    case MaterializationEviction(id) => id
    case BlobEviction(id) => id
  }

  /** Least recently used first, then by kind, then by identifier. */
  predicate Before(a: Candidate, b: Candidate) {
    if a.lastAccess != b.lastAccess then a.lastAccess < b.lastAccess
    else if Kind(a.target) != Kind(b.target) then StringLess(Kind(a.target), Kind(b.target))
    else StringLess(Id(a.target), Id(b.target))
  }

  /** The order is strict and total on candidates, so the victim is determined. */
  lemma BeforeOrder(a: Candidate, b: Candidate, c: Candidate)
    ensures !Before(a, a)
    ensures Before(a, b) ==> !Before(b, a)
    ensures Before(a, b) && Before(b, c) ==> Before(a, c)
    ensures Before(a, b) || a == b || Before(b, a)
  {
    StringLessOrder(Kind(a.target), Kind(b.target), Kind(c.target));
    StringLessOrder(Id(a.target), Id(b.target), Id(c.target));
    assert "entry" != "materialization" && "entry" != "blob" && "materialization" != "blob";
  }

  ghost predicate Sorted(candidates: seq<Candidate>) {
    forall i, j | 0 <= i < j < |candidates| :: !Before(candidates[j], candidates[i])
  }

  method InsertSorted(sorted: seq<Candidate>, c: Candidate) returns (r: seq<Candidate>)
    requires Sorted(sorted)
    ensures Sorted(r) && multiset(r) == multiset(sorted) + multiset{c}
  {
    var i := 0;
    while i < |sorted| && !Before(c, sorted[i])
      invariant i <= |sorted|
      invariant forall j | 0 <= j < i :: !Before(c, sorted[j])
    {
      i := i + 1;
    }
    r := sorted[..i] + [c] + sorted[i..];
    assert sorted == sorted[..i] + sorted[i..];
    forall j | i <= j < |sorted| ensures !Before(sorted[j], c) {
      BeforeOrder(sorted[j], c, sorted[i]);
      BeforeOrder(c, sorted[i], sorted[i]);
    }
  }

  method SortCandidates(candidates: seq<Candidate>) returns (r: seq<Candidate>)
    ensures Sorted(r) && multiset(r) == multiset(candidates)
  {
    r := [];
    for i := 0 to |candidates|
      invariant Sorted(r) && multiset(r) == multiset(candidates[..i])
    {
      assert candidates[..i + 1] == candidates[..i] + [candidates[i]];
      r := InsertSorted(r, candidates[i]);
    }
    assert candidates[..|candidates|] == candidates;
  }
}
