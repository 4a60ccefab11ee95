/** Worlds with any number of pending shared claims, reached from a settled one by
    claiming alone. */
module CacheCrowdedWorlds {
  import opened Wrappers
  import opened Keyed
  import opened CacheRecords
  import opened CacheEviction
  import opened CacheCompleteness
  import opened CacheCatalog
  import opened CacheDeletion
  import opened CacheStores
  import opened CacheTransactions
  import opened CacheSteps
  import opened CacheRecovery
  import opened CacheCrowding

  // ----- Identifiers -----

  ghost function Digit(d: nat): (c: char)
    requires d < 16
    ensures '0' <= c <= '9' || 'a' <= c <= 'f'
  {
    if d < 10 then ('0' as int + d) as char else ('a' as int + d - 10) as char
  }

  /** Three digits of `i`, filled up with zeros. */
  ghost function Id(i: nat): (id: string)
    ensures |id| == CONTENT_ID_WIDTH
  {
    [Digit(i / 256 % 16), Digit(i / 16 % 16), Digit(i % 16)] + seq(61, _ => '0')
  }

  lemma IdValid(i: nat)
    ensures ValidHexId(Id(i), CONTENT_ID_WIDTH) && ValidHexId(ClaimReferenceId(Id(i)), RANDOM_ID_WIDTH)
  {
  }

  lemma DigitInjective(a: nat, b: nat)
    requires a < 16 && b < 16 && Digit(a) == Digit(b)
    ensures a == b
  {
  }

  lemma NumberSplit(i: nat)
    requires i < 4096
    ensures i == 256 * (i / 256 % 16) + 16 * (i / 16 % 16) + i % 16
  {
  }

  lemma IdsDiffer(i: nat, j: nat)
    requires i < 4096 && j < 4096 && i != j
    ensures Id(i) != Id(j) && ClaimReferenceId(Id(i)) != ClaimReferenceId(Id(j))
  {
    var a, b := Id(i), Id(j);
    assert ClaimReferenceId(a)[0] == a[0] && ClaimReferenceId(a)[1] == a[1] && ClaimReferenceId(a)[2] == a[2];
    assert ClaimReferenceId(b)[0] == b[0] && ClaimReferenceId(b)[1] == b[1] && ClaimReferenceId(b)[2] == b[2];
    assert a[0] == Digit(i / 256 % 16) && a[1] == Digit(i / 16 % 16) && a[2] == Digit(i % 16);
    assert b[0] == Digit(j / 256 % 16) && b[1] == Digit(j / 16 % 16) && b[2] == Digit(j % 16);
    NumberSplit(i);
    NumberSplit(j);
    if a[0] == b[0] && a[1] == b[1] && a[2] == b[2] {
      DigitInjective(i / 256 % 16, j / 256 % 16);
      DigitInjective(i / 16 % 16, j / 16 % 16);
      DigitInjective(i % 16, j % 16);
    }
  }

  // ----- Rows -----

  /** A whole second after 1970, counted from the zero time. */
  const MOMENT: Time := 63_000_000_000 * 1_000_000_000

  /** Blob `i` has the entries `2 * i` and `2 * i + 1`. */
  ghost function BlobAt(i: nat): Blob { Blob(Id(i), 1, BlobPublished, MOMENT, MOMENT) }

  ghost function EntryAt(i: nat): Entry {
    Entry(Id(i), "host", "/" + Id(i), Fingerprint(Strong, "f"), Fresh, LRU, "w", false, Id(i / 2), MOMENT, MOMENT)
  }

  ghost function ReferenceAt(i: nat): Reference {
    Reference(ClaimReferenceId(Id(2 * i)), EvictionClaim(Id(2 * i)), BlobTarget(Id(i)), MOMENT)
  }

  ghost function ClaimAt(i: nat): Claim { EntryClaim(Id(2 * i), Id(i), 1, true) }

  lemma OnBlob(i: nat)
    ensures EntryAt(2 * i).blobId == Id(i) && EntryAt(2 * i + 1).blobId == Id(i)
  {
    assert 2 * i / 2 == i && (2 * i + 1) / 2 == i;
  }

  /** `m` blobs, the first `n` of them with a claim on their first entry. */
  ghost function Table(m: nat, n: nat): Snapshot {
    Snapshot(seq(m, i requires 0 <= i => BlobAt(i)), seq(2 * m, i requires 0 <= i => EntryAt(i)), [],
      seq(n, i requires 0 <= i => ReferenceAt(i)), [])
  }

  ghost function Claims(n: nat): seq<Claim> { seq(n, i requires 0 <= i => ClaimAt(i)) }

  /** Room for a claim more than any recovery takes. */
  ghost predicate Small(m: nat) { m <= MAX_PENDING + 1 }

  lemma BlobOf(m: nat, n: nat, b: Blob) returns (i: nat)
    requires b in Table(m, n).blobs
    ensures i < m && b == BlobAt(i)
  {
    i :| 0 <= i < m && Table(m, n).blobs[i] == b;
  }

  lemma EntryOf(m: nat, n: nat, e: Entry) returns (i: nat)
    requires e in Table(m, n).entries
    ensures i < 2 * m && e == EntryAt(i)
  {
    i :| 0 <= i < 2 * m && Table(m, n).entries[i] == e;
  }

  lemma ReferenceOf(m: nat, n: nat, r: Reference) returns (i: nat)
    requires r in Table(m, n).references
    ensures i < n && r == ReferenceAt(i)
  {
    i :| 0 <= i < n && Table(m, n).references[i] == r;
  }

  lemma RowsThere(m: nat, n: nat, i: nat)
    requires i < m && n <= m
    ensures BlobAt(i) in Table(m, n).blobs && EntryAt(2 * i) in Table(m, n).entries
    ensures EntryAt(2 * i + 1) in Table(m, n).entries
    ensures BlobAt(i).id in BlobIds(Table(m, n))
    ensures i < n ==> ReferenceAt(i) in Table(m, n).references
  {
    var c := Table(m, n);
    assert c.blobs[i] == BlobAt(i) && c.entries[2 * i] == EntryAt(2 * i) && c.entries[2 * i + 1] == EntryAt(2 * i + 1);
    assert BlobKey(c.blobs[i]) in BlobIds(c);
    if i < n { assert c.references[i] == ReferenceAt(i); }
  }

  lemma KeysDistinct(m: nat, n: nat)
    requires Small(m) && n <= m
    ensures Distinct(Table(m, n).blobs, BlobKey) && Distinct(Table(m, n).entries, EntryKey)
    ensures Distinct(Table(m, n).references, ReferenceKey)
  {
    var c := Table(m, n);
    forall i, j | 0 <= i < j < |c.blobs| ensures BlobKey(c.blobs[i]) != BlobKey(c.blobs[j]) { IdsDiffer(i, j); }
    forall i, j | 0 <= i < j < |c.entries| ensures EntryKey(c.entries[i]) != EntryKey(c.entries[j]) { IdsDiffer(i, j); }
    forall i, j | 0 <= i < j < |c.references| ensures ReferenceKey(c.references[i]) != ReferenceKey(c.references[j]) {
      IdsDiffer(2 * i, 2 * j);
    }
  }

  lemma TableValid(m: nat, n: nat)
    requires Small(m) && n <= m
    ensures ValidSnapshot(Table(m, n))
  {
    var c := Table(m, n);
    KeysDistinct(m, n);
    hide Distinct, Id, ClaimReferenceId, ValidHexId;
    forall b | b in c.blobs ensures ValidBlob(b) {
      var i := BlobOf(m, n, b);
      IdValid(i);
    }
    forall e | e in c.entries ensures ValidEntry(e) && e.blobId in BlobIds(c) {
      var i := EntryOf(m, n, e);
      IdValid(i);
      IdValid(i / 2);
      RowsThere(m, n, i / 2);
    }
    forall r | r in c.references ensures ValidReference(r) && TargetExists(c, r.target) {
      var i := ReferenceOf(m, n, r);
      IdValid(i);
      IdValid(2 * i);
      RowsThere(m, n, i);
    }
    forall b | b in c.blobs ensures 0 <= b.size { var i := BlobOf(m, n, b); }
    assert Distinct(c.materializations, MaterializationKey) && Distinct(c.leases, LeaseKey) by { EmptyDistinct(c); }
  }

  lemma EmptyDistinct(c: Snapshot)
    requires c.materializations == [] && c.leases == []
    ensures Distinct(c.materializations, MaterializationKey) && Distinct(c.leases, LeaseKey)
  {
  }

  // ----- The disk -----

  ghost function OneByte(id: string): Int64 { 1 }

  ghost function OnDisk(e: Entry): Directory { Present(true, map[MANIFEST := EntryFile(e.id, e.blobId, 1)]) }

  /** Every cataloged blob and manifest, and nothing else. */
  ghost function Stored(c: Snapshot): Disk {
    Disk(map id | id in BlobIds(c) :: (id, 1),
         map id | id in EntryIds(c) && EntryRow(c.entries, id).Some? :: OnDisk(EntryRow(c.entries, id).value), map[])
  }

  lemma EntryStored(c: Snapshot, e: Entry)
    requires WellLinked(c) && e in c.entries
    ensures EntryBacked(Stored(c), c, e) && HasManifest(Stored(c), e.id)
  {
    assert EntryKey(e) in EntryIds(c);
    EntryUnique(c, EntryRow(c.entries, e.id).value, e);
    hide Doomed, EntryRow, WellLinked;
    assert Stored(c).entries[e.id] == OnDisk(e);
    assert e.blobId in BlobIds(c) by { LinkedBlob(c, e); }
  }

  lemma LinkedBlob(c: Snapshot, e: Entry)
    requires WellLinked(c) && e in c.entries
    ensures e.blobId in BlobIds(c)
  {
  }

  lemma StoredTidy(c: Snapshot)
    ensures TidyDisk(Stored(c), OneByte)
  {
    hide EntryRow;
    var d := Stored(c);
    forall id | id in d.entries ensures TidyEntry(d.entries[id], id, OneByte) {
      assert EntryRow(c.entries, id).Some?;
      RowHasKey(c.entries, id);
    }
  }

  lemma RowHasKey(entries: seq<Entry>, id: string)
    requires EntryRow(entries, id).Some?
    ensures EntryRow(entries, id).value.id == id
  {
  }

  // ----- From a settled world to a crowded one -----

  lemma SettledTable(m: nat)
    requires Small(m)
    ensures Settled(Table(m, 0)) && Consistent(World(Stored(Table(m, 0)), Table(m, 0)), OneByte)
  {
    var c := Table(m, 0);
    var d := Stored(c);
    TableValid(m, 0);
    StoredTidy(c);
    forall b | b in c.blobs ensures b.size == 1 && b.state == BlobPublished && b.id in d.blobs {
      var i := BlobOf(m, 0, b);
      RowsThere(m, 0, i);
    }
    forall e | e in c.entries ensures EntryBacked(d, c, e) { EntryStored(c, e); }
    assert WellLinked(c) && c.references == [] && c.materializations == [];
    hide WellLinked, ValidSnapshot, Stored, EntryBacked, Table;
  }

  /** Claiming the first entry of the next blob is granted, as a shared claim. */
  lemma NextClaim(m: nat, n: nat)
    requires Small(m) && n < m
    ensures BeginEviction(Table(m, n), EntryEviction(Id(2 * n)), MOMENT) == Some((Table(m, n + 1), ClaimAt(n)))
  {
    hide Id, Table, EntryRow, BlobRow, EntryCount, ValidSnapshot,
      WellLinked, ClaimReferenceId, PublishedBlob, Referenced, BeginEviction;
    var c, e := Table(m, n), EntryAt(2 * n);
    RowsLookedUp(m, n);
    Unreferenced(m, n);
    TwoEntries(m, n, n);
    OneMore(m, n);
    OnBlob(n);
    SharedClaimGranted(c, e, BlobAt(n), MOMENT);
  }

  /** The rows a claim looks at. */
  lemma RowsLookedUp(m: nat, n: nat)
    requires Small(m) && n < m
    ensures var c, e := Table(m, n), EntryAt(2 * n);
      && EntryRow(c.entries, e.id) == Some(e) && BlobRow(c.blobs, Id(n)) == Some(BlobAt(n))
      && PublishedBlob(c, Id(n)) && c.materializations == [] && c.leases == []
  {
    hide Id, EntryRow, BlobRow, ValidSnapshot;
    var c, e := Table(m, n), EntryAt(2 * n);
    RowsThere(m, n, n);
    TableValid(m, n);
    ValidLinked(c);
    assert c.materializations == [] && c.leases == [];
    hide Table, WellLinked;
    RowFound(c, e, BlobAt(n));
  }

  lemma ValidLinked(c: Snapshot)
    requires ValidSnapshot(c)
    ensures WellLinked(c)
  {
  }

  lemma RowFound(c: Snapshot, e: Entry, b: Blob)
    requires WellLinked(c) && e in c.entries && b in c.blobs
    ensures EntryRow(c.entries, e.id) == Some(e) && BlobRow(c.blobs, b.id) == Some(b)
  {
    EntryUnique(c, EntryRow(c.entries, e.id).value, e);
    RowUnique(c, BlobRow(c.blobs, b.id).value, b);
  }

  lemma SharedClaimGranted(c: Snapshot, e: Entry, b: Blob, at: Time)
    requires EntryRow(c.entries, e.id) == Some(e) && BlobRow(c.blobs, e.blobId) == Some(b) && !e.pinned
    requires PublishedBlob(c, e.blobId) && c.materializations == [] && c.leases == []
    requires !Referenced(c, BlobTarget(e.blobId)) && EntryCount(c.entries, e.blobId) != 1
    requires !exists r | r in c.references :: r.id == ClaimReferenceId(e.id)
    ensures BeginEviction(c, EntryEviction(e.id), at) ==
      Some((c.(references := c.references
        + [Reference(ClaimReferenceId(e.id), EvictionClaim(e.id), BlobTarget(e.blobId), at)]),
            EntryClaim(e.id, e.blobId, b.size, true)))
  {
    hide EntryRow, BlobRow, PublishedBlob, Referenced, EntryCount, ClaimReferenceId;
  }

  lemma OneMore(m: nat, n: nat)
    ensures Table(m, n + 1) == Table(m, n).(references := Table(m, n).references + [ReferenceAt(n)])
  {
    assert Table(m, n + 1).references == Table(m, n).references + [ReferenceAt(n)];
  }

  lemma Unreferenced(m: nat, n: nat)
    requires Small(m) && n < m
    ensures !Referenced(Table(m, n), BlobTarget(Id(n)))
    ensures !exists r | r in Table(m, n).references :: r.id == ClaimReferenceId(Id(2 * n))
  {
    forall r | r in Table(m, n).references
      ensures r.target != BlobTarget(Id(n)) && r.id != ClaimReferenceId(Id(2 * n))
    {
      var i := ReferenceOf(m, n, r);
      IdsDiffer(i, n);
      IdsDiffer(2 * i, 2 * n);
    }
  }

  lemma TwoEntries(m: nat, n: nat, i: nat)
    requires Small(m) && n <= m && i < m
    ensures EntryCount(Table(m, n).entries, Id(i)) != 1
  {
    hide Id, Table, EntryCount;
    OnBlob(i);
    RowsThere(m, n, i);
    IdsDiffer(2 * i, 2 * i + 1);
    CountAtLeastTwo(Table(m, n).entries, EntryAt(2 * i), EntryAt(2 * i + 1));
  }

  /** Claims on a list of targets, each granted. */
  ghost function BeginAll(c: Snapshot, targets: seq<EvictionTarget>, at: Time): Option<Snapshot>
    decreases |targets|
  {
    if targets == [] then Some(c)
    else
      var r := BeginEviction(c, targets[0], at);
      if r.None? then None else BeginAll(r.value.0, targets[1..], at)
  }

  ghost function Targets(m: nat): seq<EvictionTarget> { seq(m, i requires 0 <= i => EntryEviction(Id(2 * i))) }

  lemma {:induction false} ClaimsGranted(m: nat, n: nat)
    requires Small(m) && n <= m
    ensures BeginAll(Table(m, n), Targets(m)[n..], MOMENT) == Some(Table(m, m))
    decreases m - n
  {
    if n < m {
      NextClaim(m, n);
      assert Targets(m)[n..][0] == EntryEviction(Id(2 * n)) && Targets(m)[n..][1..] == Targets(m)[n + 1..];
      hide BeginEviction, Table, Targets, Id;
      ClaimsGranted(m, n + 1);
    } else {
      assert Targets(m)[n..] == [];
    }
  }

  lemma {:induction false} ClaimedConsistent(m: nat, n: nat)
    requires Small(m) && n <= m
    ensures Consistent(World(Stored(Table(m, 0)), Table(m, n)), OneByte)
    decreases n
  {
    hide Consistent, Stored, Table, BeginEviction, Id;
    if n == 0 {
      SettledTable(m);
    } else {
      ClaimedConsistent(m, n - 1);
      NextClaim(m, n - 1);
      BeginKeeps(Stored(Table(m, 0)), Table(m, n - 1), EntryEviction(Id(2 * (n - 1))), MOMENT, OneByte);
    }
  }

  lemma ClaimPending(m: nat, n: nat, i: nat)
    requires Small(m) && n <= m && i < n
    ensures Pending(Table(m, n), ClaimAt(i)) && !ClaimedPinned(Table(m, n), ClaimAt(i))
  {
    hide Id, Table, ClaimReferenceId;
    var c := Table(m, n);
    RowsThere(m, n, i);
    OnBlob(i);
    assert Claimed(c, Id(2 * i), Id(i));
    hide Claimed;
    forall e | e in c.entries ensures !e.pinned { var j := EntryOf(m, n, e); }
  }

  lemma ClaimsCover(m: nat)
    ensures Covers(Table(m, m), Claims(m))
  {
    var c := Table(m, m);
    forall b | b in c.blobs ensures b.state == BlobPublished { var i := BlobOf(m, m, b); }
    assert c.materializations == [];
    forall k | Pending(c, k) ensures Listed(Claims(m), SubjectOf(k)) {
      assert k.EntryClaim? && k.shared && Claimed(c, k.entryId, k.blobId);
      var r :| r in c.references && r.owner == EvictionClaim(k.entryId) && r.target == BlobTarget(k.blobId);
      var i := ReferenceOf(m, m, r);
      assert Claims(m)[i] == ClaimAt(i) && ClaimAt(i) in Claims(m);
    }
  }

  lemma ClaimsDistinct(m: nat)
    requires Small(m)
    ensures DistinctSubjects(Claims(m)) && SharedClaims(Claims(m))
  {
    forall i, j | 0 <= i < j < m ensures SubjectOf(Claims(m)[i]) != SubjectOf(Claims(m)[j]) { IdsDiffer(2 * i, 2 * j); }
  }

  /** For every number of claims up to one more than any recovery takes there is a
      settled, valid world in which claiming alone leads to exactly that many, all
      of them ready to be carried out. */
  lemma CrowdedExists(m: nat)
    requires Small(m)
    ensures var w := World(Stored(Table(m, 0)), Table(m, 0));
      && Settled(w.catalog) && ValidSnapshot(w.catalog) && Consistent(w, OneByte)
      && BeginAll(w.catalog, Targets(m), MOMENT) == Some(Table(m, m))
      && Ready(World(w.disk, Table(m, m)), Claims(m), OneByte) && Covers(Table(m, m), Claims(m))
      && forall i | 0 <= i < m ::
           EntryThere(World(w.disk, Table(m, m)), EntryAt(2 * i), BlobAt(i)) && Claims(m)[i] == ClaimAt(i)
  {
    hide Consistent, ValidSnapshot, Settled, Covers, Pending, ClaimedPinned, BeginAll, DistinctSubjects, Stored, Id;
    SettledTable(m);
    TableValid(m, 0);
    TableValid(m, m);
    ClaimedConsistent(m, m);
    ClaimsGranted(m, 0);
    assert Targets(m)[0..] == Targets(m);
    ClaimsCover(m);
    ClaimsDistinct(m);
    forall k | k in Claims(m) ensures Pending(Table(m, m), k) && !ClaimedPinned(Table(m, m), k) {
      var i :| 0 <= i < m && Claims(m)[i] == k;
      ClaimPending(m, m, i);
    }
    forall i | 0 <= i < m ensures EntryThere(World(Stored(Table(m, 0)), Table(m, m)), EntryAt(2 * i), BlobAt(i)) {
      RowsThere(m, m, i);
      RowsThere(m, 0, i);
      ManifestThere(m, EntryAt(2 * i));
    }
  }

  lemma ManifestThere(m: nat, e: Entry)
    requires Small(m) && e in Table(m, 0).entries
    ensures HasManifest(Stored(Table(m, 0)), e.id)
  {
    TableValid(m, 0);
    EntryStored(Table(m, 0), e);
  }

  /** So for every limit there is a run from a settled, valid world: claim one more
      than the limit, carry out as many as the limit, and publish the last entry as
      pinned. Its claim stays pending and can never be finalized. */
  lemma EveryLimitLosesAClaim(n: nat, limits: Limits)
    requires n <= MAX_PENDING
    ensures var m := n + 1;
      && Settled(Table(m, 0)) && ValidSnapshot(Table(m, 0))
        && Consistent(World(Stored(Table(m, 0)), Table(m, 0)), OneByte)
      && BeginAll(Table(m, 0), Targets(m), MOMENT) == Some(Table(m, m))
      && LosesClaim(World(Stored(Table(m, 0)), Table(m, m)), Claims(n), ClaimAt(n), EntryAt(2 * n).(pinned := true),
           BlobAt(n), limits, OneByte)
  {
    hide Consistent, ValidSnapshot, Settled, Covers, Pending, ClaimedPinned, BeginAll, Stored, Id, Table, Few,
      EntryThere, Ready, LosesClaim;
    var m := n + 1;
    var w := World(Stored(Table(m, 0)), Table(m, m));
    CrowdedExists(m);
    assert Claims(m) == Claims(n) + [ClaimAt(n)];
    assert EntryThere(w, EntryAt(2 * n), BlobAt(n));
    CrowdedRun(w, Claims(n), ClaimAt(n), EntryAt(2 * n), BlobAt(n), limits, OneByte);
  }
}
