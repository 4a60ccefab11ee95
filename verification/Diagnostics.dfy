/** The diagnostic of an unsatisfied plan. Its byte tallies are added without
    guards; storing them in the source's integer type obliges the proof that
    none can overflow. */
module CacheDiagnostics {
  import opened Wrappers
  import opened Keyed
  import opened CacheRecords
  import opened CacheLeases
  import opened CacheAccounting
  import opened CacheEviction
  import opened CacheEffects
  import opened CacheCandidates
  import opened CachePlanner
  import opened CacheCompleteness

  datatype Quantity = Quantity(bytes: Int64, entries: int)

  datatype QuotaDiagnostic = QuotaDiagnostic(
    required: Quantity, releasable: Quantity, pinned: Quantity, dirty: Quantity,
    leased: Quantity, shared: Quantity, referenced: Quantity)

  const NOTHING := Quantity(0, 0)
  const NO_DIAGNOSTIC := QuotaDiagnostic(NOTHING, NOTHING, NOTHING, NOTHING, NOTHING, NOTHING, NOTHING)

  // ----- What each tally counts -----

  /** Entries on a set of blobs. */
  ghost function EntriesOn(entries: seq<Entry>, ids: set<string>): nat {
    if entries == [] then 0
    else EntriesOn(entries[..|entries| - 1], ids) + (if entries[|entries| - 1].blobId in ids then 1 else 0)
  }

  ghost function PinnedEntries(entries: seq<Entry>): nat {
    if entries == [] then 0
    else PinnedEntries(entries[..|entries| - 1]) + (if entries[|entries| - 1].pinned then 1 else 0)
  }

  ghost function PinnedBlobs(s: Snapshot): set<string> { set e | e in s.entries && e.pinned :: e.blobId }

  ghost function PinnedMaterializations(s: Snapshot): set<string> { set m | m in s.materializations && m.pinned ::
    m.id }

  ghost function UnsavedMaterializations(s: Snapshot): set<string> {
    set m | m in s.materializations && m.state in {Dirty, Orphaned} :: m.id
  }

  /** Blobs with several entries, whichever workspaces those belong to. */
  ghost function MultiEntryBlobs(s: Snapshot): set<string> { set e | e in s.entries
    && 1 < EntryCount(s.entries, e.blobId) :: e.blobId }

  ghost function ReleasableEntries(s: Snapshot, mgr: Option<LeaseManager>): set<string> {
    set e | e in s.entries && EntryEvictable(s, mgr, false, e) :: e.id
  }

  ghost function ReleasableBlobs(s: Snapshot, mgr: Option<LeaseManager>): set<string> {
    (set e | e in s.entries && EntryEvictable(s, mgr, false, e) :: e.blobId)
      + (set b | b in s.blobs && BlobEvictable(s, mgr, b) :: b.id)
  }

  ghost function ReleasableMaterializations(s: Snapshot, mgr: Option<LeaseManager>): set<string> {
    set m | m in s.materializations && MaterializationEvictable(s, mgr, m) :: m.id
  }

  /** A tally is the weight of distinct blobs and materializations, so it never
      exceeds the global bytes. */
  ghost predicate Weighs(q: Quantity, s: Snapshot, blobs: set<string>, materializations: set<string>) {
    q.bytes == BlobBytes(s, blobs) + MaterializationBytes(s, materializations)
  }

  lemma WeighsWithinGlobal(q: Quantity, s: Snapshot, blobs: set<string>, materializations: set<string>)
    requires WellLinked(s) && Weighs(q, s, blobs, materializations)
    ensures 0 <= q.bytes <= GlobalBytes(s)
  {
    BytesMonotone(s.blobs, BlobKey, BlobSize, blobs, BlobIds(s));
    BytesMonotone(s.materializations, MaterializationKey, MaterializationSize, materializations, MaterializationIds(s));
  }

  ghost predicate Diagnoses(d: QuotaDiagnostic, s: Snapshot, mgr: Option<LeaseManager>) {
    && Weighs(d.pinned, s, PinnedBlobs(s), PinnedMaterializations(s))
    && Weighs(d.dirty, s, {}, UnsavedMaterializations(s))
    && Weighs(d.leased, s, LeasedBlobs(s, mgr), LeasedMaterializations(s, mgr))
    && Weighs(d.referenced, s, ReferencedBlobs(s), ReferencedMaterializations(s))
    && Weighs(d.shared, s, MultiEntryBlobs(s), {})
    && Weighs(d.releasable, s, ReleasableBlobs(s, mgr), ReleasableMaterializations(s, mgr))
    && d.pinned.entries == PinnedEntries(s.entries)
    && d.leased.entries == EntriesOn(s.entries, LeasedBlobs(s, mgr))
    && d.referenced.entries == EntriesOn(s.entries, ReferencedBlobs(s))
    && d.shared.entries == EntriesOn(s.entries, MultiEntryBlobs(s))
    && d.releasable.entries == |ReleasableEntries(s, mgr)|
  }

  /** Every byte tally of a diagnostic is at most the global bytes, which fit. */
  lemma TalliesFit(d: QuotaDiagnostic, s: Snapshot, mgr: Option<LeaseManager>)
    requires Countable(s) && Diagnoses(d, s, mgr)
    ensures forall q | q in {d.pinned, d.dirty, d.leased, d.referenced, d.shared, d.releasable} ::
      0 <= q.bytes <= UsageOf(s).bytes
  {
    WeighsWithinGlobal(d.pinned, s, PinnedBlobs(s), PinnedMaterializations(s));
    WeighsWithinGlobal(d.dirty, s, {}, UnsavedMaterializations(s));
    WeighsWithinGlobal(d.leased, s, LeasedBlobs(s, mgr), LeasedMaterializations(s, mgr));
    WeighsWithinGlobal(d.referenced, s, ReferencedBlobs(s), ReferencedMaterializations(s));
    WeighsWithinGlobal(d.shared, s, MultiEntryBlobs(s), {});
    WeighsWithinGlobal(d.releasable, s, ReleasableBlobs(s, mgr), ReleasableMaterializations(s, mgr));
  }

  // ----- The required quantity -----

  /** Per workspace, the bytes over the limit. */
  ghost function Excess(workspaces: map<string, Int64>, limit: Int64): map<string, Int64>
    requires 0 <= limit && forall w | w in workspaces :: 0 <= workspaces[w]
  {
    map w | w in workspaces :: if workspaces[w] > limit then workspaces[w] - limit else 0
  }

  lemma {:induction false} ExcessBounds(m: map<string, Int64>, limit: Int64)
    requires 0 <= limit && forall w | w in m :: 0 <= m[w]
    ensures 0 <= Total(Excess(m, limit)) <= Total(m)
    ensures Total(Excess(m, limit)) == 0 <==> forall w | w in m :: m[w] <= limit
    decreases |m|
  {
    if m != map[] {
      var k :| k in m;
      TotalRemove(m, k);
      TotalRemove(Excess(m, limit), k);
      assert Excess(m, limit) - {k} == Excess(m - {k}, limit);
      ExcessBounds(m - {k}, limit);
      assert forall w | w in m && w != k :: w in m - {k} && m[w] == (m - {k})[w];
    }
  }

  ghost function Larger(a: int, b: int): int { if a < b then b else a }

  /** The quantity is what the usage has over the limits: bytes over the global limit
      or over the workspace limits together, whichever is more, and objects. */
  ghost predicate Lacks(q: Quantity, usage: Usage, limits: Limits)
    requires 0 <= limits.workspaceBytes && forall w | w in usage.workspaces :: 0 <= usage.workspaces[w]
  {
    && q.bytes
       == Larger(Larger(usage.bytes - limits.globalBytes, 0), Total(Excess(usage.workspaces, limits.workspaceBytes)))
    && q.entries == Larger(usage.Objects() - limits.globalEntries, 0)
  }

  lemma ExcessStep(rest: map<string, Int64>, w: string, limit: Int64)
    requires 0 <= limit && w in rest && forall v | v in rest :: 0 <= rest[v]
    ensures Total(Excess(rest, limit)) == Total(Excess(rest - {w}, limit))
      + (if rest[w] > limit then rest[w] - limit else 0)
    ensures 0 <= Total(Excess(rest - {w}, limit))
  {
    TotalRemove(Excess(rest, limit), w);
    assert Excess(rest, limit) - {w} == Excess(rest - {w}, limit);
    ExcessBounds(rest - {w}, limit);
  }

  method WorkspaceRequired(workspaces: map<string, Int64>, limit: Int64) returns (sum: Int64)
    requires 0 <= limit && forall w | w in workspaces :: 0 <= workspaces[w]
    requires Total(Excess(workspaces, limit)) <= MAX_INT64
    ensures sum == Total(Excess(workspaces, limit))
  {
    var rest: map<string, Int64> := workspaces;
    sum := 0;
    while rest != map[]
      invariant forall w | w in rest :: 0 <= rest[w]
      invariant 0 <= sum && sum + Total(Excess(rest, limit)) == Total(Excess(workspaces, limit))
      decreases |rest|
    {
      var w :| w in rest;
      ExcessStep(rest, w, limit);
      if rest[w] > limit {
        sum := sum + (rest[w] - limit);
      }
      rest := rest - {w};
    }
    assert Excess(rest, limit) == map[];
  }

  /** The deficit: zero exactly when the usage is within the limits. The
      workspace sum is at most the global bytes, so it cannot overflow. */
  method RequiredQuantity(usage: Usage, limits: Limits) returns (required: Quantity)
    requires ValidLimits(limits) && 0 <= usage.bytes && forall w | w in usage.workspaces :: 0 <= usage.workspaces[w]
    requires Total(usage.workspaces) <= usage.bytes
    ensures required == NOTHING <==> WithinLimits(usage, limits)
    ensures Lacks(required, usage, limits)
    ensures 0 <= required.bytes <= usage.bytes
  {
    ExcessBounds(usage.workspaces, limits.workspaceBytes);
    var sum := WorkspaceRequired(usage.workspaces, limits.workspaceBytes);
    var bytes: Int64 := if usage.bytes > limits.globalBytes then usage.bytes - limits.globalBytes else 0;
    var entries := if usage.Objects() > limits.globalEntries then usage.Objects() - limits.globalEntries else 0;
    required := Quantity(if sum > bytes then sum else bytes, entries);
  }

  // ----- The tallies -----

  method SizesOf<T(!new)>(items: seq<T>, key: T -> string, size: T -> Int64, ghost weight: T -> int)
    returns (sizes: map<string, Int64>)
    requires Distinct(items, key) && forall x :: weight(x) == size(x)
    ensures sizes.Keys == Keys(items, key)
    ensures forall x | x in items :: sizes[key(x)] == weight(x)
  {
    sizes := map[];
    for i := 0 to |items|
      invariant sizes.Keys == Keys(items[..i], key)
      invariant forall x | x in items[..i] :: key(x) in sizes && sizes[key(x)] == weight(x)
    {
      assert items[..i + 1] == items[..i] + [items[i]];
      Snoc(items[..i], key, items[i]);
      assert forall x | x in items[..i] :: key(x) != key(items[i]);
      sizes := sizes[key(items[i]) := size(items[i])];
    }
    assert items[..|items|] == items;
  }

  function SizeIn(sizes: map<string, Int64>, id: string): Int64 { if id in sizes then sizes[id] else 0 }

  /** `sizes` gives every record's weight by key. */
  ghost predicate Sizes<T(!new)>(sizes: map<string, Int64>, items: seq<T>, key: T -> string, size: T -> int) {
    sizes.Keys == Keys(items, key) && forall x | x in items :: sizes[key(x)] == size(x)
  }

  lemma TallyStep<T(!new)>(sizes: map<string, Int64>, items: seq<T>, key: T -> string, size: T -> int,
        done: set<string>, id: string)
    requires Distinct(items, key) && Sizes(sizes, items, key, size) && id !in done
    ensures Bytes(items, key, size, done + {id}) == Bytes(items, key, size, done) + SizeIn(sizes, id)
  {
    BytesAdditive(items, key, size, done, {id});
    if x :| x in items && key(x) == id {
      BytesOne(items, key, size, x);
    } else {
      BytesNone(items, key, size, {id});
    }
  }

  /** Adds the weights of a set of keys, in whatever order the set yields them. */
  method Tally<T(!new)>(sizes: map<string, Int64>, ghost items: seq<T>, ghost key: T -> string, ghost size: T -> int,
        ids: set<string>, start: Int64)
    returns (sum: Int64)
    requires Distinct(items, key) && Sizes(sizes, items, key, size) && NonNegative(items, size)
    requires 0 <= start && start + Bytes(items, key, size, Keys(items, key)) <= MAX_INT64
    ensures sum == start + Bytes(items, key, size, ids)
  {
    sum := start;
    var rest := ids;
    BytesNone(items, key, size, {});
    assert ids - rest == {};
    while rest != {}
      invariant rest <= ids && sum == start + Bytes(items, key, size, ids - rest)
      decreases |rest|
    {
      var id :| id in rest;
      TallyStep(sizes, items, key, size, ids - rest, id);
      assert ids - (rest - {id}) == ids - rest + {id};
      BytesMonotone(items, key, size, ids - rest + {id}, Keys(items, key));
      sum := sum + SizeIn(sizes, id);
      rest := rest - {id};
    }
    assert ids - rest == ids;
  }

  lemma {:induction false} EntriesOnInsert(entries: seq<Entry>, ids: set<string>, id: string)
    requires id !in ids
    ensures EntriesOn(entries, ids + {id}) == EntriesOn(entries, ids) + EntryCount(entries, id)
  {
    if entries != [] { EntriesOnInsert(entries[..|entries| - 1], ids, id); }
  }

  lemma {:induction false} EntriesOnNone(entries: seq<Entry>)
    ensures EntriesOn(entries, {}) == 0
  {
    if entries != [] { EntriesOnNone(entries[..|entries| - 1]); }
  }

  method TallyEntries(counts: map<string, nat>, ghost entries: seq<Entry>, ids: set<string>) returns (n: nat)
    requires CountsEntries(counts, entries)
    ensures n == EntriesOn(entries, ids)
  {
    n := 0;
    var rest := ids;
    EntriesOnNone(entries);
    assert ids - rest == {};
    while rest != {}
      invariant rest <= ids && n == EntriesOn(entries, ids - rest)
      decreases |rest|
    {
      var id :| id in rest;
      EntriesOnInsert(entries, ids - rest, id);
      assert ids - (rest - {id}) == ids - rest + {id};
      n := n + CountIn(counts, id);
      rest := rest - {id};
    }
    assert ids - rest == ids;
  }

  method PinnedSets(s: Snapshot)
    returns (blobs: set<string>, materializations: set<string>, unsaved: set<string>, entries: nat)
    ensures blobs == PinnedBlobs(s) && materializations == PinnedMaterializations(s)
    ensures unsaved == UnsavedMaterializations(s)
    ensures entries == PinnedEntries(s.entries)
  {
    blobs, materializations, unsaved, entries := {}, {}, {}, 0;
    for i := 0 to |s.materializations|
      invariant materializations == set m | m in s.materializations[..i] && m.pinned :: m.id
      invariant unsaved == set m | m in s.materializations[..i] && m.state in {Dirty, Orphaned} :: m.id
    {
      var m := s.materializations[i];
      assert s.materializations[..i + 1] == s.materializations[..i] + [m];
      if m.pinned { materializations := materializations + {m.id}; }
      if m.state == Dirty || m.state == Orphaned { unsaved := unsaved + {m.id}; }
    }
    assert s.materializations[..|s.materializations|] == s.materializations;
    for i := 0 to |s.entries|
      invariant blobs == set e | e in s.entries[..i] && e.pinned :: e.blobId
      invariant entries == PinnedEntries(s.entries[..i])
    {
      var e := s.entries[i];
      assert s.entries[..i + 1] == s.entries[..i] + [e];
      if e.pinned {
        entries := entries + 1;
        blobs := blobs + {e.blobId};
      }
    }
    assert s.entries[..|s.entries|] == s.entries;
  }

  method SharedSet(counts: map<string, nat>, ghost s: Snapshot) returns (shared: set<string>)
    requires CountsEntries(counts, s.entries)
    ensures shared == MultiEntryBlobs(s)
  {
    shared := set id | id in counts && counts[id] > 1;
    forall id | id in shared ensures id in MultiEntryBlobs(s) {
      EntryCountZero(s.entries, id);
    }
  }

  // ----- What could be released -----

  /** The blob whose bytes an eviction candidate accounts for. */
  ghost predicate Releases(s: Snapshot, t: EvictionTarget, blobId: string) {
    match t
    case BlobEviction(id) => id == blobId
    case EntryEviction(id) => exists e | e in s.entries :: e.id == id && e.blobId == blobId
    case MaterializationEviction(_) => false
  }

  /** With shared entries excluded, no blob is accounted for twice. */
  lemma ReleasesOnce(s: Snapshot, mgr: Option<LeaseManager>, t: EvictionTarget, u: EvictionTarget, id: string)
    requires WellLinked(s) && Eligible(s, mgr, false, t) && Eligible(s, mgr, false, u)
    requires Releases(s, t, id) && Releases(s, u, id)
    ensures t == u
  {
    if t.EntryEviction? {
      var e :| e in s.entries && e.id == t.entryId && EntryEvictable(s, mgr, false, e);
      EntryUnique(s, e);
      if u.EntryEviction? {
        var f :| f in s.entries && f.id == u.entryId && EntryEvictable(s, mgr, false, f);
        EntryUnique(s, f);
        SoleEntry(s, e);
      }
    }
  }

  ghost predicate ReleasedSoFar(s: Snapshot, done: seq<Candidate>, entries: set<string>,
        blobs: set<string>, materializations: set<string>) {
    && (forall id :: id in entries <==> exists c | c in done :: c.target == EntryEviction(id))
    && (forall id :: id in blobs <==> exists c | c in done :: Releases(s, c.target, id))
    && (forall id :: id in materializations <==> exists c | c in done :: c.target == MaterializationEviction(id))
  }

  lemma ReleasedEntries(s: Snapshot, mgr: Option<LeaseManager>, done: seq<Candidate>, entries: set<string>,
        blobs: set<string>, materializations: set<string>)
    requires ReleasedSoFar(s, done, entries, blobs, materializations)
    requires forall c :: c in done <==> IsCandidate(s, mgr, false, c)
    ensures entries == ReleasableEntries(s, mgr) && materializations == ReleasableMaterializations(s, mgr)
  {
    hide EntryEvictable, MaterializationEvictable, BlobEvictable, Releases;
    forall e | e in s.entries && EntryEvictable(s, mgr, false, e) ensures e.id in entries {
      assert IsCandidate(s, mgr, false, EntryCandidate(s, e));
    }
    forall m | m in s.materializations && MaterializationEvictable(s, mgr, m) ensures m.id in materializations {
      assert IsCandidate(s, mgr, false, MaterializationCandidate(m));
    }
  }

  lemma ReleasedBlobs(s: Snapshot, mgr: Option<LeaseManager>, done: seq<Candidate>, entries: set<string>,
        blobs: set<string>, materializations: set<string>)
    requires WellLinked(s) && ReleasedSoFar(s, done, entries, blobs, materializations)
    requires forall c :: c in done <==> IsCandidate(s, mgr, false, c)
    ensures blobs == ReleasableBlobs(s, mgr)
  {
    hide EntryEvictable, MaterializationEvictable, BlobEvictable, WellLinked;
    forall id | id in ReleasableBlobs(s, mgr) ensures id in blobs {
      if e :| e in s.entries && EntryEvictable(s, mgr, false, e) && e.blobId == id {
        assert IsCandidate(s, mgr, false, EntryCandidate(s, e));
        assert Releases(s, EntryCandidate(s, e).target, id);
      } else {
        var b :| b in s.blobs && BlobEvictable(s, mgr, b) && b.id == id;
        assert IsCandidate(s, mgr, false, BlobCandidate(b));
        assert Releases(s, BlobCandidate(b).target, id);
      }
    }
    forall id | id in blobs ensures id in ReleasableBlobs(s, mgr) {
      var c :| c in done && Releases(s, c.target, id);
      if c.target.EntryEviction? {
        var e :| e in s.entries && EntryEvictable(s, mgr, false, e) && c == EntryCandidate(s, e);
        EntryUnique(s, e);
      }
    }
  }

  /** One candidate's contribution to the releasable tally. */
  method ReleaseOne(s: Snapshot, ghost mgr: Option<LeaseManager>, blobSizes: map<string, Int64>,
        materializationSizes: map<string, Int64>,
                    t: EvictionTarget, bytes: Int64, ghost blobs: set<string>, ghost materializations: set<string>)
    returns (bytes': Int64, ghost blobs': set<string>, ghost materializations': set<string>)
    requires Countable(s) && Eligible(s, mgr, false, t)
    requires Sizes(blobSizes, s.blobs, BlobKey, BlobSize)
    requires Sizes(materializationSizes, s.materializations, MaterializationKey, MaterializationSize)
    requires bytes == BlobBytes(s, blobs) + MaterializationBytes(s, materializations)
    requires forall id | Releases(s, t, id) :: id !in blobs
    requires t.MaterializationEviction? ==> t.materializationId !in materializations
    ensures bytes' == BlobBytes(s, blobs') + MaterializationBytes(s, materializations')
    ensures forall id :: id in blobs' <==> id in blobs || Releases(s, t, id)
    ensures forall id :: id in materializations' <==> id in materializations || t == MaterializationEviction(id)
  {
    DistinctTables(s);
    hide Countable, WellLinked, EntryEvictable, MaterializationEvictable, BlobEvictable, GlobalBytes, Sizes, Distinct,
      Bytes;
    blobs', materializations' := blobs, materializations;
    match t {
      case EntryEviction(id) =>
        ghost var e :| e in s.entries && e.id == id && EntryEvictable(s, mgr, false, e);
        EntryAlone(s, e);
        var blobId := EntryBlob(s.entries, id);
        assert blobId == Some(e.blobId) && Releases(s, t, e.blobId);
        blobs' := blobs + {e.blobId};
        TallyStep(blobSizes, s.blobs, BlobKey, BlobSize, blobs, e.blobId);
        WeightFits(s, blobs', materializations');
        bytes' := bytes + (if blobId.Some? then SizeIn(blobSizes, blobId.value) else 0);
      case MaterializationEviction(id) =>
        materializations' := materializations + {id};
        TallyStep(materializationSizes, s.materializations, MaterializationKey, MaterializationSize, materializations,
          id);
        WeightFits(s, blobs', materializations');
        bytes' := bytes + SizeIn(materializationSizes, id);
      case BlobEviction(id) =>
        blobs' := blobs + {id};
        assert Releases(s, t, id);
        TallyStep(blobSizes, s.blobs, BlobKey, BlobSize, blobs, id);
        WeightFits(s, blobs', materializations');
        bytes' := bytes + SizeIn(blobSizes, id);
    }
  }

  lemma DistinctTables(s: Snapshot)
    requires Countable(s)
    ensures Distinct(s.blobs, BlobKey) && Distinct(s.materializations, MaterializationKey)
  {
  }

  lemma EntryAlone(s: Snapshot, e: Entry)
    requires Countable(s) && e in s.entries
    ensures forall f | f in s.entries && f.id == e.id :: f == e
  {
    EntryUnique(s, e);
  }

  lemma WeightFits(s: Snapshot, blobs: set<string>, materializations: set<string>)
    requires Countable(s)
    ensures 0 <= BlobBytes(s, blobs) + MaterializationBytes(s, materializations) <= MAX_INT64
  {
    BytesMonotone(s.blobs, BlobKey, BlobSize, blobs, BlobIds(s));
    BytesMonotone(s.materializations, MaterializationKey, MaterializationSize, materializations, MaterializationIds(s));
  }

  method Releasable(s: Snapshot, ghost mgr: Option<LeaseManager>, index: ProtectionIndex, blobSizes: map<string, Int64>,
        materializationSizes: map<string, Int64>)
    returns (q: Quantity)
    requires Countable(s) && WellLinked(s) && Inspected(index, s, mgr)
    requires Sizes(blobSizes, s.blobs, BlobKey, BlobSize)
    requires Sizes(materializationSizes, s.materializations, MaterializationKey, MaterializationSize)
    ensures Weighs(q, s, ReleasableBlobs(s, mgr), ReleasableMaterializations(s, mgr))
    ensures q.entries == |ReleasableEntries(s, mgr)|
  {
    hide Countable, WellLinked, Inspected, Sizes, IsCandidate, BlobBytes, MaterializationBytes, ReleasedSoFar,
      Eligible, Releases,
      ReleasableBlobs, ReleasableMaterializations, ReleasableEntries, DistinctTargets;
    var candidates := EnumerateCandidates(s, mgr, index, false);
    ghost var doneEntries: set<string>, doneBlobs: set<string>, doneMaterializations: set<string> := {}, {}, {};
    NothingWeighsNothing(s);
    var bytes: Int64, entries := 0, 0;
    ReleasedNone(s);
    for i := 0 to |candidates|
      invariant ReleasedSoFar(s, candidates[..i], doneEntries, doneBlobs, doneMaterializations)
      invariant bytes == BlobBytes(s, doneBlobs) + MaterializationBytes(s, doneMaterializations)
      invariant entries == |doneEntries|
    {
      var t := candidates[i].target;
      CandidateEligible(s, mgr, false, candidates[i]);
      NotYetReleased(s, mgr, candidates, i, doneEntries, doneBlobs, doneMaterializations);
      ghost var before, beforeMaterializations, beforeEntries := doneBlobs, doneMaterializations, doneEntries;
      bytes, doneBlobs,
        doneMaterializations := ReleaseOne(s, mgr, blobSizes, materializationSizes, t, bytes, doneBlobs,
          doneMaterializations);
      if t.EntryEviction? {
        entries := entries + 1;
        doneEntries := doneEntries + {t.entryId};
      }
      assert candidates[..i + 1] == candidates[..i] + [candidates[i]];
      ReleasedNext(s, candidates[..i], candidates[i], beforeEntries, before, beforeMaterializations, doneEntries,
        doneBlobs, doneMaterializations);
    }
    assert candidates[..|candidates|] == candidates;
    ReleasedEntries(s, mgr, candidates, doneEntries, doneBlobs, doneMaterializations);
    ReleasedBlobs(s, mgr, candidates, doneEntries, doneBlobs, doneMaterializations);
    q := Quantity(bytes, entries);
  }

  lemma NothingWeighsNothing(s: Snapshot)
    ensures BlobBytes(s, {}) == 0 && MaterializationBytes(s, {}) == 0
  {
    BytesNone(s.blobs, BlobKey, BlobSize, {});
    BytesNone(s.materializations, MaterializationKey, MaterializationSize, {});
  }

  lemma ReleasedNone(s: Snapshot)
    ensures ReleasedSoFar(s, [], {}, {}, {})
  {
  }

  lemma ReleasedNext(s: Snapshot, done: seq<Candidate>, c: Candidate,
                     entries: set<string>, blobs: set<string>, materializations: set<string>,
                     entries': set<string>, blobs': set<string>, materializations': set<string>)
    requires ReleasedSoFar(s, done, entries, blobs, materializations)
    requires entries' == entries + (if c.target.EntryEviction? then {c.target.entryId} else {})
    requires forall id :: id in blobs' <==> id in blobs || Releases(s, c.target, id)
    requires forall id :: id in materializations' <==> id in materializations || c.target == MaterializationEviction(id)
    ensures ReleasedSoFar(s, done + [c], entries', blobs', materializations')
  {
    hide Releases;
  }

  lemma NotYetReleased(s: Snapshot, mgr: Option<LeaseManager>, candidates: seq<Candidate>, i: nat,
                       entries: set<string>, blobs: set<string>, materializations: set<string>)
    requires WellLinked(s) && i < |candidates| && DistinctTargets(candidates)
    requires forall c :: c in candidates <==> IsCandidate(s, mgr, false, c)
    requires ReleasedSoFar(s, candidates[..i], entries, blobs, materializations)
    ensures var t := candidates[i].target;
      && (t.EntryEviction? ==> t.entryId !in entries)
      && (t.MaterializationEviction? ==> t.materializationId !in materializations)
      && (forall id | Releases(s, t, id) :: id !in blobs)
  {
    hide IsCandidate, WellLinked, Releases;
    var t := candidates[i].target;
    forall c | c in candidates[..i] ensures c.target != t {
      var j :| 0 <= j < i && candidates[..i][j] == c;
      assert candidates[j] == c;
    }
    forall id | Releases(s, t, id) ensures id !in blobs {
      if id in blobs {
        var c :| c in candidates[..i] && Releases(s, c.target, id);
        assert c in candidates;
        CandidateEligible(s, mgr, false, c);
        CandidateEligible(s, mgr, false, candidates[i]);
        ReleasesOnce(s, mgr, c.target, t, id);
      }
    }
  }

  // ----- The whole diagnostic -----

  method BuildDiagnostic(s: Snapshot, usage: Usage, limits: Limits, mgr: Option<LeaseManager>, index: ProtectionIndex)
    returns (d: QuotaDiagnostic)
    requires Countable(s) && usage == UsageOf(s) && Inspected(index, s, mgr) && ValidLimits(limits)
    ensures d.required == NOTHING <==> Fits(s, limits)
    ensures d.required.bytes <= usage.bytes
    ensures (forall w | w in usage.workspaces :: 0 <= usage.workspaces[w]) && Lacks(d.required, usage, limits)
    ensures Diagnoses(d, s, mgr)
  {
    UsageReady(s);
    UsageMeansFits(s, limits);
    hide GlobalBytes, UsageOf, Inspected, WithinLimits, Fits, Lacks;
    var required := RequiredQuantity(usage, limits);
    var blobSizes := SizesOf(s.blobs, BlobKey, (b: Blob) => b.size, BlobSize);
    var materializationSizes := SizesOf(s.materializations, MaterializationKey, (m: Materialization) => m.size,
      MaterializationSize);
    d := BuildTallies(s, mgr, index, blobSizes, materializationSizes);
    d := d.(required := required);
  }

  lemma UsageReady(s: Snapshot)
    requires Countable(s)
    ensures WellLinked(s)
    ensures 0 <= UsageOf(s).bytes && Total(UsageOf(s).workspaces) <= UsageOf(s).bytes
    ensures forall w | w in UsageOf(s).workspaces :: 0 <= UsageOf(s).workspaces[w]
  {
    BytesConserved(s);
    PartsWithinGlobal(s, {});
    forall w | w in UsageOf(s).workspaces ensures 0 <= UsageOf(s).workspaces[w] { PartsWithinGlobal(s, {w}); }
  }

  method TallyBoth(s: Snapshot, blobSizes: map<string, Int64>, materializationSizes: map<string, Int64>,
        blobs: set<string>, materializations: set<string>)
    returns (bytes: Int64)
    requires Countable(s)
    requires Sizes(blobSizes, s.blobs, BlobKey, BlobSize)
    requires Sizes(materializationSizes, s.materializations, MaterializationKey, MaterializationSize)
    ensures bytes == BlobBytes(s, blobs) + MaterializationBytes(s, materializations)
  {
    BytesMonotone(s.blobs, BlobKey, BlobSize, blobs, BlobIds(s));
    BytesMonotone(s.materializations, MaterializationKey, MaterializationSize, {}, MaterializationIds(s));
    hide Sizes, Distinct;
    var part := Tally(blobSizes, s.blobs, BlobKey, BlobSize, blobs, 0);
    bytes := Tally(materializationSizes, s.materializations, MaterializationKey, MaterializationSize,
      materializations, part);
  }

  method BuildTallies(s: Snapshot, mgr: Option<LeaseManager>, index: ProtectionIndex, blobSizes: map<string, Int64>,
        materializationSizes: map<string, Int64>)
    returns (d: QuotaDiagnostic)
    requires Countable(s) && WellLinked(s) && Inspected(index, s, mgr)
    requires Sizes(blobSizes, s.blobs, BlobKey, BlobSize)
    requires Sizes(materializationSizes, s.materializations, MaterializationKey, MaterializationSize)
    ensures Diagnoses(d, s, mgr)
  {
    hide Countable, WellLinked, Sizes, CountsEntries, BlobBytes, MaterializationBytes;
    var pinnedBlobs, pinnedMaterializations, unsaved, pinnedEntries := PinnedSets(s);
    var pinned := TallyBoth(s, blobSizes, materializationSizes, pinnedBlobs, pinnedMaterializations);
    var dirty := TallyBoth(s, blobSizes, materializationSizes, {}, unsaved);
    var leased := TallyBoth(s, blobSizes, materializationSizes, index.leasedBlobs, index.leasedMaterializations);
    var leasedEntries := TallyEntries(index.entriesByBlob, s.entries, index.leasedBlobs);
    var referenced := TallyBoth(s, blobSizes, materializationSizes, index.referencedBlobs,
      index.referencedMaterializations);
    var referencedEntries := TallyEntries(index.entriesByBlob, s.entries, index.referencedBlobs);
    var sharedBlobs := SharedSet(index.entriesByBlob, s);
    var shared := TallyBoth(s, blobSizes, materializationSizes, sharedBlobs, {});
    var sharedEntries := TallyEntries(index.entriesByBlob, s.entries, sharedBlobs);
    var releasable := Releasable(s, mgr, index, blobSizes, materializationSizes);
    d := QuotaDiagnostic(NOTHING, releasable, Quantity(pinned, pinnedEntries), Quantity(dirty, 0),
      Quantity(leased, leasedEntries), Quantity(shared, sharedEntries), Quantity(referenced, referencedEntries));
  }
}
