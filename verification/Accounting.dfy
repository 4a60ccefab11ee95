/** Quota accounting: how the bytes of a snapshot split over workspaces, the
    shared pool and blobs that no entry names, with the source's int64 guards. */
module CacheAccounting {
  import opened Wrappers
  import opened Keyed
  import opened CacheRecords

  datatype Usage = Usage(bytes: Int64, entries: nat, materializations: nat, workspaces: map<string, Int64>,
    sharedBytes: Int64) {
    function Objects(): nat { entries + materializations }

    function WorkspaceBytes(w: string): Int64 {
      if w in workspaces then workspaces[w] else 0
    }
  }

  datatype AccountError = NotValid | ByteCountOverflow

  // ----- What the numbers mean -----

  /** The workspaces with an entry on a blob. */
  ghost function Owners(s: Snapshot, blobId: string): set<string> {
    set e | e in s.entries && e.blobId == blobId :: e.workspaceId
  }

  ghost function WorkspaceIds(s: Snapshot): set<string> {
    set e | e in s.entries :: e.workspaceId
  }

  /** Blobs owned by exactly one workspace, that one being in `ws`. */
  ghost function OwnedBlobs(s: Snapshot, ws: set<string>): set<string> {
    set b | b in s.blobs && (exists w | w in ws :: Owners(s, b.id) == {w}) :: b.id
  }

  ghost function SharedBlobs(s: Snapshot): set<string> {
    set b | b in s.blobs && 2 <= |Owners(s, b.id)| :: b.id
  }

  ghost function OrphanBlobs(s: Snapshot): set<string> {
    set b | b in s.blobs && Owners(s, b.id) == {} :: b.id
  }

  ghost function OwnedMaterializations(s: Snapshot, ws: set<string>): set<string> {
    set m, e | m in s.materializations && e in s.entries && e.id == m.entryId && e.workspaceId in ws :: m.id
  }

  ghost function BlobBytes(s: Snapshot, ids: set<string>): int { Bytes(s.blobs, BlobKey, BlobSize, ids) }

  ghost function MaterializationBytes(s: Snapshot, ids: set<string>): int {
    Bytes(s.materializations, MaterializationKey, MaterializationSize, ids)
  }

  /** The same totals over the first `i` records of a table. */
  ghost function BlobsTo(s: Snapshot, i: nat, ids: set<string>): int
    requires i <= |s.blobs|
  {
    Bytes(s.blobs[..i], BlobKey, BlobSize, ids)
  }

  ghost function MaterializationsTo(s: Snapshot, j: nat, ids: set<string>): int
    requires j <= |s.materializations|
  {
    Bytes(s.materializations[..j], MaterializationKey, MaterializationSize, ids)
  }

  ghost function GlobalBytes(s: Snapshot): int {
    BlobBytes(s, BlobIds(s)) + MaterializationBytes(s, MaterializationIds(s))
  }

  ghost function SharedBytes(s: Snapshot): int { BlobBytes(s, SharedBlobs(s)) }

  ghost function OrphanBytes(s: Snapshot): int { BlobBytes(s, OrphanBlobs(s)) }

  ghost function WorkspaceBytes(s: Snapshot, ws: set<string>): int {
    BlobBytes(s, OwnedBlobs(s, ws)) + MaterializationBytes(s, OwnedMaterializations(s, ws))
  }

  /** No total of a well-linked snapshot exceeds its global bytes. */
  lemma PartsWithinGlobal(s: Snapshot, ws: set<string>)
    requires WellLinked(s)
    ensures 0 <= WorkspaceBytes(s, ws) <= GlobalBytes(s)
    ensures 0 <= SharedBytes(s) <= GlobalBytes(s)
    ensures 0 <= OrphanBytes(s) <= GlobalBytes(s)
  {
    BytesMonotone(s.blobs, BlobKey, BlobSize, OwnedBlobs(s, ws), BlobIds(s));
    BytesMonotone(s.blobs, BlobKey, BlobSize, SharedBlobs(s), BlobIds(s));
    BytesMonotone(s.blobs, BlobKey, BlobSize, OrphanBlobs(s), BlobIds(s));
    BytesMonotone(s.materializations, MaterializationKey, MaterializationSize, OwnedMaterializations(s, ws),
      MaterializationIds(s));
  }

  /** The snapshot's true byte total fits the source's integer type. */
  ghost predicate Countable(s: Snapshot) {
    WellLinked(s) && GlobalBytes(s) <= MAX_INT64
  }

  ghost function UsageOf(s: Snapshot): Usage
    requires Countable(s)
  {
    PartsWithinGlobal(s, {});
    assert forall w :: 0 <= WorkspaceBytes(s, {w}) <= GlobalBytes(s) by {
      forall w ensures 0 <= WorkspaceBytes(s, {w}) <= GlobalBytes(s) { PartsWithinGlobal(s, {w}); }
    }
    Usage(GlobalBytes(s), |s.entries|, |s.materializations|,
          map w | w in WorkspaceIds(s) :: WorkspaceBytes(s, {w}), SharedBytes(s))
  }

  // ----- Conservation -----

  ghost function Total(m: map<string, Int64>): int
    decreases |m|
  {
    if m == map[] then 0
    else var k :| k in m; m[k] + Total(m - {k})
  }

  lemma {:induction false} TotalRemove(m: map<string, Int64>, k: string)
    requires k in m
    ensures Total(m) == m[k] + Total(m - {k})
    decreases |m|
  {
    var p :| p in m && Total(m) == m[p] + Total(m - {p});
    if p != k {
      TotalRemove(m - {p}, k);
      TotalRemove(m - {k}, p);
      assert m - {p} - {k} == m - {k} - {p};
    }
  }

  lemma OwnedSplit(s: Snapshot, ws: set<string>, w: string)
    requires WellLinked(s) && w !in ws
    ensures WorkspaceBytes(s, ws + {w}) == WorkspaceBytes(s, ws) + WorkspaceBytes(s, {w})
  {
    assert OwnedBlobs(s, ws + {w}) == OwnedBlobs(s, ws) + OwnedBlobs(s, {w});
    forall id | id in OwnedBlobs(s, ws) ensures id !in OwnedBlobs(s, {w}) {
      var v :| v in ws && Owners(s, id) == {v};
      assert v in Owners(s, id);
    }
    BytesAdditive(s.blobs, BlobKey, BlobSize, OwnedBlobs(s, ws), OwnedBlobs(s, {w}));
    assert OwnedMaterializations(s, ws + {w}) == OwnedMaterializations(s, ws) + OwnedMaterializations(s, {w});
    forall id | id in OwnedMaterializations(s, ws) ensures id !in OwnedMaterializations(s, {w}) {
      MaterializationOwner(s, id, ws, {w});
    }
    BytesAdditive(s.materializations, MaterializationKey, MaterializationSize, OwnedMaterializations(s, ws),
      OwnedMaterializations(s, {w}));
  }

  /** A materialization belongs to one workspace. */
  lemma MaterializationOwner(s: Snapshot, id: string, v: set<string>, w: set<string>)
    requires WellLinked(s) && v !! w && id in OwnedMaterializations(s, v)
    ensures id !in OwnedMaterializations(s, w)
  {
    if id in OwnedMaterializations(s, w) {
      var m, e :| m in s.materializations && e in s.entries && e.id == m.entryId && e.workspaceId in v && m.id == id;
      var m', e' :| m' in s.materializations && e' in s.entries && e'.id == m'.entryId && e'.workspaceId in w
        && m'.id == id;
      KeyInjective(s.materializations, MaterializationKey, m, m');
      KeyInjective(s.entries, EntryKey, e, e');
    }
  }

  lemma {:induction false} WorkspaceTotal(s: Snapshot, m: map<string, Int64>)
    requires WellLinked(s)
    requires forall w | w in m :: m[w] == WorkspaceBytes(s, {w})
    ensures Total(m) == WorkspaceBytes(s, m.Keys)
    decreases |m|
  {
    if m == map[] {
      NoWorkspaceNoBytes(s);
      assert m.Keys == {};
    } else {
      hide *;
      var k :| k in m;
      var rest := m - {k};
      KeysWithout(m, k);
      TotalRemove(m, k);
      WorkspaceTotal(s, rest);
      OwnedSplit(s, rest.Keys, k);
    }
  }

  lemma KeysWithout(m: map<string, Int64>, k: string)
    requires k in m
    ensures var rest := m - {k};
      k !in rest && rest.Keys + {k} == m.Keys && |rest| < |m| && forall w | w in rest :: w in m && rest[w] == m[w]
  {
    var rest := m - {k};
    assert rest.Keys == m.Keys - {k};
    assert |rest.Keys| == |rest| && |m.Keys| == |m|;
  }

  lemma NoWorkspaceNoBytes(s: Snapshot)
    ensures WorkspaceBytes(s, {}) == 0
  {
    assert OwnedBlobs(s, {}) == {} && OwnedMaterializations(s, {}) == {};
    BytesNone(s.blobs, BlobKey, BlobSize, {});
    BytesNone(s.materializations, MaterializationKey, MaterializationSize, {});
  }

  lemma SingletonOwner(o: set<string>)
    requires |o| == 1
    ensures exists w :: o == {w}
  {
    var w :| w in o;
    assert |o - {w}| == 0;
    assert o == {w};
  }

  /** Every blob is in exactly one of the three pools. */
  lemma PoolsPartition(s: Snapshot)
    requires WellLinked(s)
    ensures BlobIds(s) == OwnedBlobs(s, WorkspaceIds(s)) + SharedBlobs(s) + OrphanBlobs(s)
    ensures OwnedBlobs(s, WorkspaceIds(s)) !! SharedBlobs(s)
    ensures OwnedBlobs(s, WorkspaceIds(s)) !! OrphanBlobs(s)
    ensures SharedBlobs(s) !! OrphanBlobs(s)
  {
    forall b | b in s.blobs
      ensures b.id in OwnedBlobs(s, WorkspaceIds(s)) + SharedBlobs(s) + OrphanBlobs(s)
    {
      if |Owners(s, b.id)| == 1 {
        SingletonOwner(Owners(s, b.id));
        var w :| Owners(s, b.id) == {w};
        assert w in Owners(s, b.id) && w in WorkspaceIds(s);
      }
    }
  }

  /** Byte conservation: global bytes are the workspace bytes, the shared pool
      and the blobs without an entry, each byte counted once. */
  lemma BytesConserved(s: Snapshot)
    requires Countable(s)
    ensures UsageOf(s).bytes == Total(UsageOf(s).workspaces) + UsageOf(s).sharedBytes + OrphanBytes(s)
  {
    var m := UsageOf(s).workspaces;
    WorkspaceTotal(s, m);
    assert m.Keys == WorkspaceIds(s);
    PoolsPartition(s);
    var owned := OwnedBlobs(s, WorkspaceIds(s));
    BytesAdditive(s.blobs, BlobKey, BlobSize, owned + SharedBlobs(s), OrphanBlobs(s));
    BytesAdditive(s.blobs, BlobKey, BlobSize, owned, SharedBlobs(s));
    forall x | x in s.materializations ensures x.id in OwnedMaterializations(s, WorkspaceIds(s)) {
      var e :| e in s.entries && e.id == x.entryId;
    }
    BytesAgree(s.materializations, MaterializationKey, MaterializationSize, MaterializationIds(s),
      OwnedMaterializations(s, WorkspaceIds(s)));
  }

  // ----- The accounting loops -----

  /** The guarded addition: refuses exactly the sums that do not fit. */
  method AddBytes(destination: Int64, amount: Int64) returns (sum: Option<Int64>)
    requires 0 <= destination && 0 <= amount
    ensures sum.Some? <==> destination + amount <= MAX_INT64
    ensures sum.Some? ==> sum.value == destination + amount
  {
    if amount > MAX_INT64 - destination { return None; }
    sum := Some(destination + amount);
  }

  ghost function WorkspaceSet(entries: seq<Entry>): set<string> {
    set e | e in entries :: e.workspaceId
  }

  method WorkspacesOf(entries: seq<Entry>) returns (workspaces: set<string>)
    ensures workspaces == WorkspaceSet(entries)
  {
    workspaces := {};
    for i := 0 to |entries|
      invariant workspaces == WorkspaceSet(entries[..i])
    {
      workspaces := workspaces + {entries[i].workspaceId};
      assert entries[..i + 1] == entries[..i] + [entries[i]];
    }
    assert entries[..|entries|] == entries;
  }

  /** `index` lists, for every blob, the entries of `entries` that name it. */
  ghost predicate IndexesByBlob(index: map<string, seq<Entry>>, entries: seq<Entry>) {
    && (forall e | e in entries :: e.blobId in index && e in index[e.blobId])
    && (forall id, e | id in index && e in index[id] :: e in entries && e.blobId == id)
  }

  method IndexEntries(entries: seq<Entry>)
    returns (byBlob: map<string, seq<Entry>>, byId: map<string, Entry>, workspaces: map<string, Int64>)
    requires Distinct(entries, EntryKey)
    ensures IndexesByBlob(byBlob, entries)
    ensures forall e | e in entries :: e.id in byId && byId[e.id] == e
    ensures workspaces.Keys == WorkspaceSet(entries)
    ensures forall w | w in workspaces :: workspaces[w] == 0
  {
    byBlob, byId, workspaces := map[], map[], map[];
    for i := 0 to |entries|
      invariant IndexesByBlob(byBlob, entries[..i])
      invariant forall e | e in entries[..i] :: e.id in byId && byId[e.id] == e
      invariant workspaces.Keys == WorkspaceSet(entries[..i])
      invariant forall w | w in workspaces :: workspaces[w] == 0
    {
      var e := entries[i];
      assert entries[..i + 1] == entries[..i] + [e];
      assert forall x | x in entries[..i] :: x.id != e.id;
      byBlob := byBlob[e.blobId := (if e.blobId in byBlob then byBlob[e.blobId] else []) + [e]];
      byId := byId[e.id := e];
      workspaces := workspaces[e.workspaceId := 0];
    }
    assert entries[..|entries|] == entries;
  }

  /** The running totals after the first `i` blobs. */
  ghost predicate BlobTotals(s: Snapshot, i: nat, bytes: int, shared: int, workspaces: map<string, Int64>)
    requires i <= |s.blobs|
  {
    && bytes == BlobsTo(s, i, BlobIds(s))
    && shared == BlobsTo(s, i, SharedBlobs(s))
    && workspaces.Keys == WorkspaceIds(s)
    && forall w | w in workspaces :: workspaces[w] == BlobsTo(s, i, OwnedBlobs(s, {w}))
  }

  /** One blob credited: to the map entry of its sole owner, if it has one. */
  ghost predicate Credited(before: map<string, Int64>, after: map<string, Int64>, owners: set<string>, size: int) {
    after.Keys == before.Keys && forall w | w in before :: after[w] == before[w] + (if owners == {w} then size else 0)
  }

  lemma BlobTotalsStep(s: Snapshot, i: nat, bytes: int, shared: int, before: map<string, Int64>,
        after: map<string, Int64>)
    requires WellLinked(s) && i < |s.blobs| && BlobTotals(s, i, bytes, shared, before)
    requires Credited(before, after, Owners(s, s.blobs[i].id), s.blobs[i].size)
    ensures BlobTotals(s, i + 1, bytes + s.blobs[i].size,
      shared + (if 2 <= |Owners(s, s.blobs[i].id)| then s.blobs[i].size else 0), after)
  {
    BlobsScanned(s, i);
    forall w | w in before ensures after[w] == BlobsTo(s, i + 1, OwnedBlobs(s, {w})) { BlobsScannedIn(s, i, w); }
  }

  lemma BlobTotalsBounds(s: Snapshot, i: nat, bytes: int, shared: int, workspaces: map<string, Int64>)
    requires WellLinked(s) && i < |s.blobs| && BlobTotals(s, i, bytes, shared, workspaces)
    ensures 0 <= s.blobs[i].size && 0 <= shared <= bytes && bytes + s.blobs[i].size <= BlobBytes(s, BlobIds(s))
    ensures forall w | w in workspaces :: 0 <= workspaces[w] <= bytes
    ensures Owners(s, s.blobs[i].id) <= workspaces.Keys
  {
    BlobsScanned(s, i);
    BlobsScanned(s, i + 1);
    forall w | w in workspaces ensures 0 <= workspaces[w] <= bytes { BlobsScannedIn(s, i, w); }
  }

  lemma BlobTotalsEnds(s: Snapshot, bytes: int, shared: int, workspaces: map<string, Int64>)
    ensures workspaces.Keys == WorkspaceIds(s) && (forall w | w in workspaces :: workspaces[w] == 0) ==>
      BlobTotals(s, 0, 0, 0, workspaces)
    ensures BlobTotals(s, |s.blobs|, bytes, shared, workspaces) <==>
      && bytes == BlobBytes(s, BlobIds(s)) && shared == SharedBytes(s) && workspaces.Keys == WorkspaceIds(s)
      && forall w | w in workspaces :: workspaces[w] == BlobBytes(s, OwnedBlobs(s, {w}))
  {
    assert s.blobs[..|s.blobs|] == s.blobs;
  }

  lemma IndexedOwners(s: Snapshot, byBlob: map<string, seq<Entry>>, id: string)
    requires IndexesByBlob(byBlob, s.entries)
    ensures WorkspaceSet(if id in byBlob then byBlob[id] else []) == Owners(s, id)
  {
  }

  /** One blob of the blob loop. Only the global guard can fire. */
  method AccountBlob(s: Snapshot, byBlob: map<string, seq<Entry>>, i: nat, bytes: Int64, shared: Int64,
        workspaces: map<string, Int64>)
    returns (ok: bool, bytes': Int64, shared': Int64, workspaces': map<string, Int64>)
    requires WellLinked(s) && IndexesByBlob(byBlob, s.entries)
    requires i < |s.blobs| && BlobTotals(s, i, bytes, shared, workspaces)
    ensures ok ==> BlobTotals(s, i + 1, bytes', shared', workspaces')
    ensures !ok ==> MAX_INT64 < BlobBytes(s, BlobIds(s))
  {
    hide *;
    var b := s.blobs[i];
    BlobTotalsBounds(s, i, bytes, shared, workspaces);
    var sum := AddBytes(bytes, b.size);
    if sum.None? { return false, bytes, shared, workspaces; }
    IndexedOwners(s, byBlob, b.id);
    var owners := WorkspacesOf(if b.id in byBlob then byBlob[b.id] else []);
    workspaces' := CreditSoleOwner(workspaces, owners, b.size, bytes);
    shared' := shared;
    if |owners| > 1 {
      var pool := AddBytes(shared, b.size);
      assert pool.Some?;
      shared' := pool.value;
    }
    ok, bytes' := true, sum.value;
    BlobTotalsStep(s, i, bytes, shared, workspaces, workspaces');
  }

  /** The blob loop: global bytes, the shared pool and each sole owner's bytes. */
  method AccountBlobs(s: Snapshot, byBlob: map<string, seq<Entry>>, zero: map<string, Int64>)
    returns (ok: bool, bytes: Int64, shared: Int64, workspaces: map<string, Int64>)
    requires WellLinked(s) && IndexesByBlob(byBlob, s.entries)
    requires zero.Keys == WorkspaceIds(s) && forall w | w in zero :: zero[w] == 0
    ensures ok <==> BlobBytes(s, BlobIds(s)) <= MAX_INT64
    ensures ok ==> BlobTotals(s, |s.blobs|, bytes, shared, workspaces)
  {
    assert MAX_INT64 == 0x7fff_ffff_ffff_ffff;
    hide *;
    ok, bytes, shared, workspaces := true, 0, 0, zero;
    BlobTotalsEnds(s, 0, 0, zero);
    for i := 0 to |s.blobs|
      invariant ok && BlobTotals(s, i, bytes, shared, workspaces)
    {
      ok, bytes, shared, workspaces := AccountBlob(s, byBlob, i, bytes, shared, workspaces);
      if !ok { return; }
    }
    BlobTotalsEnds(s, bytes, shared, workspaces);
  }

  /** A sole owner's guard cannot fire once the global guard has passed. */
  method CreditSoleOwner(before: map<string, Int64>, owners: set<string>, size: Int64, bytes: Int64)
    returns (after: map<string, Int64>)
    requires 0 <= size && bytes + size <= MAX_INT64 && owners <= before.Keys
    requires forall w | w in before :: 0 <= before[w] <= bytes
    ensures Credited(before, after, owners, size)
  {
    after := before;
    if |owners| == 1 {
      SingletonOwner(owners);
      var w :| w in owners;
      assert owners == {w};
      var own := AddBytes(before[w], size);
      assert own.Some?;
      after := before[w := own.value];
      assert forall v | v in before && v != w :: owners != {v};
    } else {
      assert forall v | v in before :: owners != {v};
    }
  }

  /** The running totals after all blobs and the first `j` materializations. */
  ghost predicate AllTotals(s: Snapshot, j: nat, bytes: int, workspaces: map<string, Int64>)
    requires j <= |s.materializations|
  {
    && bytes == BlobBytes(s, BlobIds(s)) + MaterializationsTo(s, j, MaterializationIds(s))
    && workspaces.Keys == WorkspaceIds(s)
    && forall w | w in workspaces ::
      workspaces[w] == BlobBytes(s, OwnedBlobs(s, {w})) + MaterializationsTo(s, j, OwnedMaterializations(s, {w}))
  }

  lemma AllTotalsStep(s: Snapshot, j: nat, e: Entry, bytes: int, before: map<string, Int64>, after: map<string, Int64>)
    requires WellLinked(s) && j < |s.materializations| && AllTotals(s, j, bytes, before)
    requires e in s.entries && e.id == s.materializations[j].entryId
    requires Credited(before, after, {e.workspaceId}, s.materializations[j].size)
    ensures AllTotals(s, j + 1, bytes + s.materializations[j].size, after)
  {
    MaterializationsScanned(s, j, e, e.workspaceId);
    forall w | w in before
      ensures after[w] == BlobBytes(s, OwnedBlobs(s, {w})) + MaterializationsTo(s, j + 1, OwnedMaterializations(s, {w}))
    {
      MaterializationsScanned(s, j, e, w);
    }
  }

  lemma AllTotalsBounds(s: Snapshot, j: nat, e: Entry, bytes: int, workspaces: map<string, Int64>)
    requires WellLinked(s) && j < |s.materializations| && AllTotals(s, j, bytes, workspaces)
    requires e in s.entries && e.id == s.materializations[j].entryId
    ensures 0 <= s.materializations[j].size && bytes + s.materializations[j].size <= GlobalBytes(s) && 0 <= bytes
    ensures forall w | w in workspaces :: 0 <= workspaces[w] <= bytes
    ensures e.workspaceId in workspaces
  {
    assert s.materializations[j] in s.materializations;
    MaterializationsScanned(s, j, e, e.workspaceId);
    forall w | w in workspaces ensures 0 <= workspaces[w] <= bytes { MaterializationsScanned(s, j, e, w); }
  }

  lemma AllTotalsEnds(s: Snapshot, bytes: int, shared: int, workspaces: map<string, Int64>)
    ensures BlobTotals(s, |s.blobs|, bytes, shared, workspaces) ==> AllTotals(s, 0, bytes, workspaces)
    ensures AllTotals(s, |s.materializations|, bytes, workspaces) <==>
      && bytes == GlobalBytes(s) && workspaces.Keys == WorkspaceIds(s)
      && forall w | w in workspaces :: workspaces[w] == WorkspaceBytes(s, {w})
  {
    BlobTotalsEnds(s, bytes, shared, workspaces);
    assert s.materializations[..|s.materializations|] == s.materializations;
  }

  lemma IndexedOwner(s: Snapshot, byId: map<string, Entry>, m: Materialization)
    requires WellLinked(s) && m in s.materializations
    requires forall e | e in s.entries :: e.id in byId && byId[e.id] == e
    ensures m.entryId in byId && byId[m.entryId] in s.entries && byId[m.entryId].id == m.entryId
  {
    var e :| e in s.entries && e.id == m.entryId;
  }

  /** One materialization of the materialization loop. */
  method AccountMaterialization(s: Snapshot, byId: map<string, Entry>, j: nat, bytes: Int64,
        workspaces: map<string, Int64>)
    returns (ok: bool, bytes': Int64, workspaces': map<string, Int64>)
    requires WellLinked(s) && forall e | e in s.entries :: e.id in byId && byId[e.id] == e
    requires j < |s.materializations| && AllTotals(s, j, bytes, workspaces)
    ensures ok ==> AllTotals(s, j + 1, bytes', workspaces')
    ensures !ok ==> MAX_INT64 < GlobalBytes(s)
  {
    hide *;
    var m := s.materializations[j];
    IndexedOwner(s, byId, m);
    var e := byId[m.entryId];
    AllTotalsBounds(s, j, e, bytes, workspaces);
    var sum := AddBytes(bytes, m.size);
    if sum.None? { return false, bytes, workspaces; }
    workspaces' := CreditSoleOwner(workspaces, {e.workspaceId}, m.size, bytes);
    ok, bytes' := true, sum.value;
    AllTotalsStep(s, j, e, bytes, workspaces, workspaces');
  }

  /** The materialization loop, on top of the blob totals. */
  method AccountMaterializations(s: Snapshot, byId: map<string, Entry>, blobBytes: Int64, ghost shared: Int64,
        owned: map<string, Int64>)
    returns (ok: bool, bytes: Int64, workspaces: map<string, Int64>)
    requires WellLinked(s) && forall e | e in s.entries :: e.id in byId && byId[e.id] == e
    requires BlobTotals(s, |s.blobs|, blobBytes, shared, owned)
    ensures ok <==> GlobalBytes(s) <= MAX_INT64
    ensures ok ==> AllTotals(s, |s.materializations|, bytes, workspaces)
  {
    assert MAX_INT64 == 0x7fff_ffff_ffff_ffff;
    hide *;
    ok, bytes, workspaces := true, blobBytes, owned;
    AllTotalsEnds(s, blobBytes, shared, owned);
    for j := 0 to |s.materializations|
      invariant ok && AllTotals(s, j, bytes, workspaces)
    {
      ok, bytes, workspaces := AccountMaterialization(s, byId, j, bytes, workspaces);
      if !ok { return; }
    }
    AllTotalsEnds(s, bytes, shared, workspaces);
  }

  /** Accounting succeeds exactly when the true total fits, and then reports the
      usage; the workspace and shared guards can never be the ones that fire. */
  method AccountValidated(s: Snapshot) returns (r: Result<Usage, AccountError>)
    requires WellLinked(s)
    ensures r == if GlobalBytes(s) <= MAX_INT64 then Ok(UsageOf(s)) else Err(ByteCountOverflow)
  {
    var byBlob, byId, zero := IndexEntries(s.entries);
    BlobsWithinGlobal(s);
    hide WellLinked, OwnedBlobs, SharedBlobs, OwnedMaterializations, BlobIds, MaterializationIds, BlobTotals, AllTotals,
      GlobalBytes, IndexesByBlob, UsageOf, SharedBytes, WorkspaceBytes, BlobBytes, WorkspaceIds;
    var blobsOk, blobBytes, shared, owned := AccountBlobs(s, byBlob, zero);
    if !blobsOk { return Err(ByteCountOverflow); }
    var ok, bytes, workspaces := AccountMaterializations(s, byId, blobBytes, shared, owned);
    if !ok { return Err(ByteCountOverflow); }
    BlobTotalsEnds(s, blobBytes, shared, owned);
    AllTotalsEnds(s, bytes, shared, workspaces);
    r := Ok(Usage(bytes, |s.entries|, |s.materializations|, workspaces, shared));
    UsageIs(s, bytes, shared, workspaces);
  }

  lemma UsageIs(s: Snapshot, bytes: Int64, shared: Int64, workspaces: map<string, Int64>)
    requires Countable(s) && bytes == GlobalBytes(s) && shared == SharedBytes(s) && workspaces.Keys == WorkspaceIds(s)
    requires forall w | w in workspaces :: workspaces[w] == WorkspaceBytes(s, {w})
    ensures UsageOf(s) == Usage(bytes, |s.entries|, |s.materializations|, workspaces, shared)
  {
    hide GlobalBytes, SharedBytes, WorkspaceBytes, WorkspaceIds, WellLinked;
    assert workspaces == UsageOf(s).workspaces;
  }

  lemma BlobsWithinGlobal(s: Snapshot)
    requires WellLinked(s)
    ensures BlobBytes(s, BlobIds(s)) <= GlobalBytes(s)
  {
    BytesMonotone(s.materializations, MaterializationKey, MaterializationSize, {}, MaterializationIds(s));
    BytesMonotone(s.materializations, MaterializationKey, MaterializationSize, MaterializationIds(s),
      MaterializationIds(s));
  }

  /** Accounting on its own looks at the snapshot first. */
  method Account(s: Snapshot) returns (r: Result<Usage, AccountError>)
    ensures r == Err(NotValid) <==> !ValidSnapshot(s)
    ensures r.Ok? <==> ValidSnapshot(s) && GlobalBytes(s) <= MAX_INT64
    ensures r.Ok? ==> Countable(s) && r.value == UsageOf(s)
  {
    var valid := Validate(s);
    if !valid { return Err(NotValid); }
    r := AccountValidated(s);
  }

  lemma BlobPool(s: Snapshot, b: Blob, w: string)
    requires WellLinked(s) && b in s.blobs
    ensures b.id in OwnedBlobs(s, {w}) <==> Owners(s, b.id) == {w}
  {
  }

  lemma MaterializationPool(s: Snapshot, m: Materialization, e: Entry, w: string)
    requires WellLinked(s) && m in s.materializations && e in s.entries && e.id == m.entryId
    ensures m.id in OwnedMaterializations(s, {w}) <==> e.workspaceId == w
  {
    if e.workspaceId == w {
      assert m.id in OwnedMaterializations(s, {w});
    } else {
      assert m.id in OwnedMaterializations(s, {e.workspaceId});
      MaterializationOwner(s, m.id, {e.workspaceId}, {w});
    }
  }

  /** While blobs are scanned, the running totals stay within the running global
      total, and that within the true one. */
  lemma BlobsScanned(s: Snapshot, i: nat)
    requires WellLinked(s) && i <= |s.blobs|
    ensures 0 <= BlobsTo(s, i, SharedBlobs(s)) <= BlobsTo(s, i, BlobIds(s)) <= BlobBytes(s, BlobIds(s))
    ensures i < |s.blobs| ==> 0 <= s.blobs[i].size
    ensures i < |s.blobs| ==> BlobsTo(s, i + 1, BlobIds(s)) == BlobsTo(s, i, BlobIds(s)) + s.blobs[i].size
    ensures i < |s.blobs| ==>
      BlobsTo(s, i + 1, SharedBlobs(s)) == BlobsTo(s, i, SharedBlobs(s))
        + (if 2 <= |Owners(s, s.blobs[i].id)| then s.blobs[i].size else 0)
  {
    assert forall x | x in s.blobs[..i] :: x in s.blobs;
    BytesMonotone(s.blobs[..i], BlobKey, BlobSize, SharedBlobs(s), BlobIds(s));
    BytesPrefix(s.blobs, BlobKey, BlobSize, BlobIds(s), i);
    if i < |s.blobs| {
      BytesStep(s.blobs, BlobKey, BlobSize, BlobIds(s), i);
      BytesStep(s.blobs, BlobKey, BlobSize, SharedBlobs(s), i);
      assert s.blobs[i] in s.blobs;
      assert BlobKey(s.blobs[i]) in BlobIds(s);
    }
  }

  lemma BlobsScannedIn(s: Snapshot, i: nat, w: string)
    requires WellLinked(s) && i < |s.blobs|
    ensures 0 <= BlobsTo(s, i, OwnedBlobs(s, {w})) <= BlobsTo(s, i, BlobIds(s))
    ensures BlobsTo(s, i + 1, OwnedBlobs(s, {w})) == BlobsTo(s, i, OwnedBlobs(s, {w}))
      + (if Owners(s, s.blobs[i].id) == {w} then s.blobs[i].size else 0)
  {
    assert forall x | x in s.blobs[..i] :: x in s.blobs;
    BytesMonotone(s.blobs[..i], BlobKey, BlobSize, OwnedBlobs(s, {w}), BlobIds(s));
    BytesStep(s.blobs, BlobKey, BlobSize, OwnedBlobs(s, {w}), i);
    assert s.blobs[i] in s.blobs;
    BlobPool(s, s.blobs[i], w);
  }

  lemma MaterializationsScanned(s: Snapshot, j: nat, e: Entry, w: string)
    requires WellLinked(s) && j < |s.materializations| && e in s.entries && e.id == s.materializations[j].entryId
    ensures 0 <= BlobBytes(s, OwnedBlobs(s, {w})) <= BlobBytes(s, BlobIds(s))
    ensures 0 <= MaterializationsTo(s, j, OwnedMaterializations(s, {w})) <= MaterializationsTo(s, j,
      MaterializationIds(s))
    ensures MaterializationsTo(s, j + 1, MaterializationIds(s)) <= MaterializationBytes(s, MaterializationIds(s))
    ensures MaterializationsTo(s, j + 1, MaterializationIds(s)) == MaterializationsTo(s, j, MaterializationIds(s))
      + s.materializations[j].size
    ensures MaterializationsTo(s, j + 1, OwnedMaterializations(s, {w})) ==
            MaterializationsTo(s, j, OwnedMaterializations(s, {w}))
              + (if e.workspaceId == w then s.materializations[j].size else 0)
  {
    var m := s.materializations[j];
    assert forall x | x in s.materializations[..j] :: x in s.materializations;
    BytesMonotone(s.materializations[..j], MaterializationKey, MaterializationSize, OwnedMaterializations(s, {w}),
      MaterializationIds(s));
    BytesPrefix(s.materializations, MaterializationKey, MaterializationSize, MaterializationIds(s), j + 1);
    BytesMonotone(s.blobs, BlobKey, BlobSize, OwnedBlobs(s, {w}), BlobIds(s));
    BytesStep(s.materializations, MaterializationKey, MaterializationSize, MaterializationIds(s), j);
    BytesStep(s.materializations, MaterializationKey, MaterializationSize, OwnedMaterializations(s, {w}), j);
    assert m in s.materializations;
    assert MaterializationKey(m) in MaterializationIds(s);
    MaterializationPool(s, m, e, w);
  }
}
