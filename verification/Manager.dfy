/** The cache manager at work on the two stores: publish, hand out, evict,
    recover and reconcile, one store write at a time. Every world it passes
    through is recorded, and each of them is consistent: that is what a crash
    after any step leaves behind. */
module CacheManager {
  import opened Wrappers
  import opened Keyed
  import opened CacheRecords
  import opened CacheLeases
  import opened CacheAccounting
  import opened CacheEviction
  import opened CacheCandidates
  import opened CachePlanner
  import opened CachePlanning
  import opened CacheAdmission
  import opened CacheCatalog
  import opened CacheDeletion
  import opened CacheStores
  import opened CacheTransactions
  import opened CacheChanges
  import opened CacheOutside
  import opened CacheSteps
  import opened CacheRecovery

  ghost predicate HasEntry(c: Snapshot, id: string, blobId: string) {
    exists e | e in c.entries :: e.id == id && e.blobId == blobId
  }

  /** Eviction only takes away: published blobs, manifests, blob files and
      entries of the later world were all there before, and what has left the
      catalog has left the disk. */
  ghost predicate Narrows(a: World, b: World) {
    && (forall id :: PublishedBlob(b.catalog, id) ==> PublishedBlob(a.catalog, id))
    && (forall id :: HasManifest(b.disk, id) ==> HasManifest(a.disk, id))
    && (forall id | id in b.disk.blobs :: id in a.disk.blobs)
    && (forall id, x :: HasEntry(b.catalog, id, x) ==> HasEntry(a.catalog, id, x))
    && Frees(a, b)
  }

  lemma NarrowsRefl(a: World)
    ensures Narrows(a, a)
  {
  }

  lemma NarrowsTrans(a: World, b: World, c: World)
    requires Narrows(a, b) && Narrows(b, c)
    ensures Narrows(a, c)
  {
    FreesTrans(a, b, c);
    hide PublishedBlob, HasManifest, HasEntry, Frees;
  }

  lemma NarrowsRely(d: Disk, e: Disk, c: Snapshot, r: Snapshot)
    requires Rely(c, r) && e.blobs == d.blobs && e.entries == d.entries && Emptier(d, e)
    ensures Narrows(World(d, c), World(e, r))
  {
    MildTables(c, r);
    FreesRely(d, e, c, r);
    hide Rely, PublishedBlob, Frees;
    forall f | f in r.entries ensures HasEntry(c, f.id, f.blobId) { RelyIsMild(c, r); var x := MildEntryBack(c, r, f); }
  }

  lemma RelyIsMild(c: Snapshot, r: Snapshot)
    requires Rely(c, r)
    ensures Mild(c, r)
  {
  }

  lemma NarrowsBegin(d: Disk, c: Snapshot, t: EvictionTarget, at: Time)
    requires BeginEviction(c, t, at).Some?
    ensures Narrows(World(d, c), World(d, BeginEviction(c, t, at).value.0))
  {
    FreesBegin(d, c, t, at);
    hide Frees;
    var r := BeginEviction(c, t, at).value.0;
    forall id | PublishedBlob(r, id) ensures PublishedBlob(c, id) {
      var x :| x in r.blobs && x.id == id && x.state == BlobPublished;
      var i :| 0 <= i < |r.blobs| && r.blobs[i] == x;
      assert c.blobs[i] in c.blobs;
    }
  }

  lemma NarrowsFinalize(d: Disk, c: Snapshot, k: Claim)
    requires FinalizeEviction(c, k).Some? && Cleared(d, k)
    ensures Narrows(World(d, c), World(d, FinalizeEviction(c, k).value))
  {
    FreesFinalize(d, c, k);
    hide Frees, Cleared;
    match k
    case MaterializationClaim(id, _, _) =>
    case BlobClaim(id, _) => WithoutMembers(c.blobs, BlobKey, id);
    case EntryClaim(id, blobId, _, _) =>
      WithoutMembers(c.entries, EntryKey, id);
      WithoutMembers(c.blobs, BlobKey, blobId);
  }

  ghost predicate AllConsistent(worlds: seq<World>, sizes: Sizes) {
    forall w | w in worlds :: Consistent(w, sizes)
  }

  ghost predicate AllCalm(worlds: seq<World>, n: int) {
    forall w | w in worlds :: Calm(w.catalog, n)
  }

  /** The world others start from is part of their run. */
  lemma OutsideRunFrom(worlds: seq<World>, n: nat, d: Disk, c: Snapshot, sizes: Sizes)
    requires n < |worlds| && worlds[n] == World(d, c) && Consistent(World(d, c), sizes)
    requires OutsideRun(worlds, n + 1, d, c)
    ensures OutsideRun(worlds, n, d, c)
  {
    StandsStill(d, c, sizes);
    DiskRelyRefl(d, c);
    hide Rely, DiskRely, Consistent;
  }

  lemma ConsistentMore(worlds: seq<World>, w: World, sizes: Sizes)
    requires AllConsistent(worlds, sizes) && Consistent(w, sizes)
    ensures AllConsistent(worlds + [w], sizes)
  {
    hide Consistent;
  }

  lemma CalmMore(worlds: seq<World>, w: World, n: int)
    requires AllCalm(worlds, n) && Calm(w.catalog, n)
    ensures AllCalm(worlds + [w], n)
  {
    hide Calm;
  }

  /** Nothing cataloged needs the blob file. */
  ghost predicate Loose(d: Disk, c: Snapshot, id: string) {
    !PublishedBlob(c, id) && forall e | e in c.entries && e.blobId == id :: !HasManifest(d, e.id)
  }

  /** Every pending claim can be carried out, and the rounds suffice for them. */
  ghost predicate Recovers(w: World, limit: int, rounds: nat) {
    1 <= limit <= MAX_PENDING && AllRecoverable(w) && Few(w.catalog, rounds * limit)
  }

  ghost predicate RecoversRun(worlds: seq<World>, n: nat, limit: int, rounds: nat) {
    forall i | n <= i < |worlds| :: Recovers(worlds[i], limit, rounds)
  }

  /** What a recovery was enough for at first, it is enough for later. */
  lemma RecoveryResumes(worlds: seq<World>, n: nat, w: World, limit: int, rounds: nat)
    requires ResumesRun(worlds, n, w) && Recovers(w, limit, rounds)
    ensures RecoversRun(worlds, n, limit, rounds)
  {
    hide Pending, Recoverable, Few;
    forall i | n <= i < |worlds| ensures Recovers(worlds[i], limit, rounds) {
      assert Resumes(w, worlds[i]);
      FewLess(w.catalog, worlds[i].catalog, rounds * limit);
    }
  }

  class Manager {
    var disk: Disk
    var catalog: Snapshot
    /** Batches of outside steps still to come, in any number and order. */
    var schedule: seq<seq<OutsideStep>>
    const limits: Limits
    ghost const sizes: Sizes
    /** The world it started on. */
    ghost const start: World
    /** Every world so far. */
    ghost var visited: seq<World>

    /** Every world so far is consistent, and calm if the first one was. */
    ghost predicate Valid()
      reads this
    {
      && Consistent(World(disk, catalog), sizes) && AllConsistent(visited, sizes)
      && visited != [] && visited[|visited| - 1] == World(disk, catalog)
      && (Calmly() ==> Calm(catalog, limits.maxCandidates) && AllCalm(visited, limits.maxCandidates))
    }

    /** It started with no more claims than one recovery lists, none of them pinned. */
    ghost predicate Calmly() { 1 <= limits.maxCandidates && Calm(start.catalog, limits.maxCandidates) }

    ghost function Now(): World
      reads this
    {
      World(disk, catalog)
    }

    lemma LastWorld()
      requires Valid()
      ensures visited != [] && visited[|visited| - 1] == Now() == World(disk, catalog) && Consistent(Now(), sizes)
    {
    }

    /** A start, or a restart on whatever a crash left: any consistent world. */
    constructor (d: Disk, c: Snapshot, limits: Limits, schedule: seq<seq<OutsideStep>>, ghost sizes: Sizes)
      requires Consistent(World(d, c), sizes)
      ensures Valid() && Now() == start == World(d, c) && this.sizes == sizes && this.limits == limits
    {
      disk, catalog, this.limits, this.schedule, this.sizes := d, c, limits, schedule, sizes;
      start := World(d, c);
      visited := [World(d, c)];
    }

    /** Lets the others run. */
    method Yield()
      requires Valid()
      modifies this
      ensures Valid() && old(visited) <= visited
      ensures Rely(old(catalog), catalog) && DiskRely(old(disk), disk, old(catalog))
      ensures OutsideRun(visited, |old(visited)|, old(disk), old(catalog))
    {
      StandsStill(disk, catalog, sizes);
      DiskRelyRefl(disk, catalog);
      OutsideRunEmpty(visited, disk, catalog);
      if schedule == [] { return; }
      var batch := schedule[0];
      schedule := schedule[1..];
      hide *;
      for i := 0 to |batch|
        invariant Valid() && old(visited) <= visited
        invariant Rely(old(catalog), catalog) && DiskRely(old(disk), disk, old(catalog))
        invariant OutsideRun(visited, |old(visited)|, old(disk), old(catalog))
      {
        Take(batch[i], old(disk), old(catalog), |old(visited)|);
      }
    }

    /** One of their steps, as part of a run of them. */
    method Take(s: OutsideStep, ghost d: Disk, ghost c: Snapshot, ghost n: nat)
      requires Valid() && Rely(c, catalog) && DiskRely(d, disk, c) && OutsideRun(visited, n, d, c)
      modifies this
      ensures Valid() && old(visited) <= visited
      ensures Rely(c, catalog) && DiskRely(d, disk, c) && OutsideRun(visited, n, d, c)
    {
      hide Rely, DiskRely, Outside, Consistent, Calm, Calmly, OutsideRun;
      var next := Outside(World(disk, catalog), s);
      OutsideConsistent(World(disk, catalog), s, sizes);
      if Calmly() { RelyCalm(catalog, next.catalog, limits.maxCandidates); }
      RelyTrans(c, catalog, next.catalog);
      DiskRelyTrans(d, disk, next.disk, c, catalog);
      OutsideRunMore(visited, n, d, c, next);
      disk, catalog := next.disk, next.catalog;
      visited := visited + [next];
    }

    /** One durable change of the disk, after which others may run. */
    method WriteDisk(d: Disk)
      requires Valid() && Consistent(World(d, catalog), sizes)
      modifies this
      ensures Valid() && old(visited) + [World(d, old(catalog))] <= visited
      ensures Rely(old(catalog), catalog) && DiskRely(d, disk, old(catalog))
      ensures OutsideRun(visited, |old(visited)|, d, old(catalog))
    {
      hide Rely, Consistent, Calm, Calmly, AllConsistent, AllCalm, DiskRely, OutsideRun;
      ConsistentMore(visited, World(d, catalog), sizes);
      if Calmly() { CalmMore(visited, World(d, catalog), limits.maxCandidates); }
      disk := d;
      visited := visited + [World(disk, catalog)];
      Yield();
      OutsideRunFrom(visited, |old(visited)|, d, old(catalog), sizes);
    }

    /** One catalog transaction, after which others may run. */
    method WriteCatalog(c: Snapshot)
      requires Valid() && Consistent(World(disk, c), sizes) && (Calmly() ==> Calm(c, limits.maxCandidates))
      modifies this
      ensures Valid() && old(visited) + [World(old(disk), c)] <= visited
      ensures Rely(c, catalog) && DiskRely(old(disk), disk, c)
      ensures OutsideRun(visited, |old(visited)|, old(disk), c)
    {
      hide Rely, Consistent, Calm, Calmly, AllConsistent, AllCalm, DiskRely, OutsideRun;
      ConsistentMore(visited, World(disk, c), sizes);
      if Calmly() { CalmMore(visited, World(disk, c), limits.maxCandidates); }
      catalog := c;
      visited := visited + [World(disk, catalog)];
      Yield();
      OutsideRunFrom(visited, |old(visited)|, old(disk), c, sizes);
    }

    /** Removes an entry directory: the manifest, then the directory. */
    method DeleteEntry(id: string, blobId: string) returns (ok: bool)
      requires Valid() && forall e | e in catalog.entries && e.id == id :: Doomed(catalog, e)
      modifies this
      ensures Valid() && old(visited) <= visited && Rely(old(catalog), catalog)
      ensures ok <==> EntryDeletable(DirectoryAt(old(disk.entries), id), id, blobId, old(disk.blobs))
      ensures disk.blobs == old(disk.blobs)
      ensures disk.entries == if ok then old(disk.entries) - {id} else old(disk.entries)
      ensures SparesRun(visited, |old(visited)|, old(Now()), {id}, {}, {})
      ensures Spares(old(disk), disk, old(catalog), {id}, {}, {})
    {
      hide Rely, Consistent, AllConsistent, Doomed, EntryDeletable, Spares, AllCalm, Calm, Calmly;
      StandsStill(disk, catalog, sizes);
      EntriesPresent(disk, catalog, sizes);
      SparesNothing(disk, catalog, {id}, {}, {});
      var dir := DirectoryAt(disk.entries, id);
      ok := EntryDeletable(dir, id, blobId, disk.blobs);
      if ok && dir.Present? {
        if MANIFEST in dir.children {
          DropManifestKeeps(disk, catalog, id, sizes);
          WriteEntry(id, Present(true, map[]));
        }
        ghost var w, seen := Now(), visited;
        EmptyDirectoryKeeps(disk, catalog, id, Absent, sizes);
        WriteEntry(id, Absent);
        RelyTrans(old(catalog), w.catalog, catalog);
        SparesRunJoin(seen, visited, |old(visited)|, old(Now()), w, {id}, {}, {});
        SparesTrans(old(disk), w.disk, disk, old(catalog), w.catalog, {id}, {}, {});
      }
    }

    /** One file or directory of an entry. */
    method WriteEntry(id: string, dir: Directory)
      requires Valid() && Consistent(World(WithEntry(disk, id, dir), catalog), sizes)
      modifies this
      ensures Valid() && old(visited) <= visited && Rely(old(catalog), catalog)
      ensures disk.blobs == old(disk.blobs) && disk.entries == WithEntry(old(disk), id, dir).entries
      ensures id in old(disk.entries) ==>
        && SparesRun(visited, |old(visited)|, old(Now()), {id}, {}, {})
        && Spares(old(disk), disk, old(catalog), {id}, {}, {})
    {
      hide Rely, Consistent, AllConsistent, OutsideRun, SparesRun, Valid, AllCalm, Calm, Calmly, DirectoryAt,
        BeingDeleted;
      var next := WithEntry(disk, id, dir);
      WriteDisk(next);
      if id in old(disk.entries) {
        OutsideRunSpares(visited, |old(visited)|, next, old(Now()), {id}, {}, {});
        SparesRely(old(disk), next, disk, old(catalog), {id}, {}, {});
      }
    }

    /** Removes a blob file whose content still matches; a missing one is fine. */
    method DeleteBlob(id: string, size: Int64) returns (ok: bool)
      requires Valid() && Loose(disk, catalog, id)
      modifies this
      ensures Valid() && old(visited) <= visited && Rely(old(catalog), catalog)
      ensures ok <==> id !in old(disk.blobs) || old(disk.blobs)[id] == (id, size)
      ensures disk.blobs == if ok then old(disk.blobs) - {id} else old(disk.blobs)
      ensures disk.entries == old(disk.entries)
      ensures SparesRun(visited, |old(visited)|, old(Now()), {}, {id}, {})
      ensures Spares(old(disk), disk, old(catalog), {}, {id}, {})
    {
      hide Rely, Consistent, AllConsistent, OutsideRun, AllCalm, Calm, Calmly, Spares, Loose, DiskRely;
      StandsStill(disk, catalog, sizes);
      SparesNothing(disk, catalog, {}, {id}, {});
      var outcome, rest := CacheDeletion.DeleteBlob(disk.blobs, BlobIdentity(id, size));
      ok := outcome == BlobGone;
      if ok && id in disk.blobs {
        LooseDrops(disk, catalog, id, sizes);
        SparesDropped(disk, catalog, id);
        var next := disk.(blobs := rest);
        WriteDisk(next);
        DiskRelyEmptier(next, disk, old(catalog));
        OutsideRunSpares(visited, |old(visited)|, next, old(Now()), {}, {id}, {});
        SparesRely(old(disk), next, disk, old(catalog), {}, {id}, {});
      }
    }

    /** One file or directory of a materialization under deletion. */
    method WriteMaterialization(id: string, dir: Directory)
      requires Valid() && BeingDeleted(catalog, id)
      requires dir.Present? ==> DirectoryAt(disk.materializations, id).Present?
      modifies this
      ensures Valid() && old(visited) <= visited && Rely(old(catalog), catalog)
      ensures disk.blobs == old(disk.blobs) && disk.entries == old(disk.entries)
      ensures BeingDeleted(catalog, id) && DirectoryAt(disk.materializations, id) == dir
      ensures SparesRun(visited, |old(visited)|, old(Now()), {}, {}, {id})
      ensures Spares(old(disk), disk, old(catalog), {}, {}, {id})
      ensures CopyRun(visited, |old(visited)|, old(disk), id, dir)
    {
      hide Rely, DiskRely, OutsideRun, SparesRun, CopyRun, AllConsistent, AllCalm, Calm, Calmly, Consistent;
      var dirs := if dir.Absent? then disk.materializations - {id} else disk.materializations[id := dir];
      var next := disk.(materializations := dirs);
      assert Consistent(World(disk, catalog), sizes);
      assert DirectoryAt(next.materializations, id) == dir;
      assert Spares(disk, next, catalog, {}, {}, {id});
      hide Spares, DirectoryAt, BeingDeleted, Valid;
      DiskOutsideKeeps(disk, next, catalog, sizes);
      WriteDisk(next);
      RelyDeleting(old(catalog), catalog);
      DiskRelyCopy(next, disk, old(catalog), id);
      OutsideRunSpares(visited, |old(visited)|, next, old(Now()), {}, {}, {id});
      SparesRely(old(disk), next, disk, old(catalog), {}, {}, {id});
      OutsideRunCopy(visited, |old(visited)|, old(disk), next, old(catalog), id, dir);
    }

    /** Removes a materialization directory: content, manifest, directory. Every
        world in between can be taken up again. */
    method DeleteMaterialization(id: string, expected: BlobIdentity) returns (ok: bool)
      requires Valid() && BeingDeleted(catalog, id)
      modifies this
      ensures Valid() && old(visited) <= visited && Rely(old(catalog), catalog)
      ensures ok <==>
        MaterializationDeletable(DirectoryAt(old(disk.materializations), id), id, expected, old(disk.blobs),
          old(disk.entries))
      ensures disk.blobs == old(disk.blobs) && disk.entries == old(disk.entries)
      ensures ok ==> DirectoryAt(disk.materializations, id) == Absent
      ensures !ok ==> visited == old(visited) && Now() == old(Now())
      ensures DeletableRun(visited, |old(visited)|, old(disk), id, expected)
      ensures SparesRun(visited, |old(visited)|, old(Now()), {}, {}, {id})
      ensures Spares(old(disk), disk, old(catalog), {}, {}, {id})
    {
      StandsStill(disk, catalog, sizes);
      SparesNothing(disk, catalog, {}, {}, {id});
      var dir := DirectoryAt(disk.materializations, id);
      ghost var was := dir;
      ok := MaterializationDeletable(dir, id, expected, disk.blobs, disk.entries);
      hide Rely, Consistent, AllConsistent, BeingDeleted, MaterializationDeletable, Spares, StaysDeletable, CopyRun,
        Shrinks, Valid, AllCalm, Calm, Calmly;
      if ok && dir.Present? {
        FilesGo(dir, id, expected, disk.blobs, disk.entries);
        if CONTENT in dir.children {
          dir := dir.(children := dir.children - {CONTENT});
          RemoveFiles(old(Now()), old(visited), id, dir, expected);
        }
        if MANIFEST in dir.children {
          dir := dir.(children := dir.children - {MANIFEST});
          RemoveFiles(old(Now()), old(visited), id, dir, expected);
        }
        RemoveFiles(old(Now()), old(visited), id, Absent, expected);
      }
    }

    /** One step of that removal, as part of the whole. */
    method RemoveFiles(ghost w: World, ghost seen: seq<World>, id: string, dir: Directory, ghost expected: BlobIdentity)
      requires Valid() && BeingDeleted(catalog, id) && seen <= visited && Rely(w.catalog, catalog)
      requires disk.blobs == w.disk.blobs && disk.entries == w.disk.entries
      requires MaterializationDeletable(dir, id, expected, disk.blobs, disk.entries)
      requires Shrinks(DirectoryAt(w.disk.materializations, id), dir)
      requires dir.Present? ==> DirectoryAt(disk.materializations, id).Present?
      requires DeletableRun(visited, |seen|, w.disk, id, expected)
      requires SparesRun(visited, |seen|, w, {}, {}, {id}) && Spares(w.disk, disk, w.catalog, {}, {}, {id})
      modifies this
      ensures Valid() && old(visited) <= visited && BeingDeleted(catalog, id) && seen <= visited
      ensures Rely(w.catalog, catalog)
      ensures disk.blobs == w.disk.blobs && disk.entries == w.disk.entries
      ensures DirectoryAt(disk.materializations, id) == dir
      ensures DeletableRun(visited, |seen|, w.disk, id, expected)
      ensures SparesRun(visited, |seen|, w, {}, {}, {id}) && Spares(w.disk, disk, w.catalog, {}, {}, {id})
    {
      hide Rely, Valid, BeingDeleted, Spares, SparesRun, CopyRun, DeletableRun, MaterializationDeletable,
        DirectoryAt, Shrinks;
      WriteMaterialization(id, dir);
      RelyTrans(w.catalog, old(catalog), catalog);
      SparesRunJoin(old(visited), visited, |seen|, w, old(Now()), {}, {}, {id});
      SparesTrans(w.disk, old(disk), disk, w.catalog, old(catalog), {}, {}, {id});
      DeletableRunJoin(old(visited), visited, |seen|, w.disk, old(disk), id, dir, expected);
    }

    /** Runs the catalog's finalizing transaction, if it is granted. */
    method Finalize(k: Claim) returns (ok: bool)
      requires Valid() && Pending(catalog, k)
      modifies this
      ensures Valid() && old(visited) <= visited
      ensures ok <==> FinalizeEviction(old(catalog), k).Some?
      ensures ok <==> !ClaimedPinned(old(catalog), k)
      ensures if ok then Rely(FinalizeEviction(old(catalog), k).value, catalog) else Rely(old(catalog), catalog)
      ensures if ok then Rows(catalog) < Rows(old(catalog)) else Rows(catalog) == Rows(old(catalog))
      ensures disk.blobs == old(disk.blobs) && disk.entries == old(disk.entries) && Emptier(old(disk), disk)
      ensures Cleared(old(disk), k) ==>
        && ResumesRun(visited, |old(visited)|, old(Now())) && Resumes(old(Now()), Now())
        && Narrows(old(Now()), Now())
    {
      hide Rely, DiskRely, TidyCatalog, Backed, TidyDisk, AllConsistent, AllCalm, Calm, Pending, FinalizeEviction,
        Narrows, ClaimedPinned, Recoverable, OutsideRun, ResumesRun, Resumes, Cleared, Emptier, Rows;
      FinalizeExact(catalog, k, sizes);
      hide Consistent;
      StandsStill(disk, catalog, sizes);
      NarrowsRefl(Now());
      ghost var cleared := Cleared(disk, k);
      assert Emptier(disk, disk) by { EmptierRefl(disk); }
      var final := FinalizeEviction(catalog, k);
      ok := final.Some?;
      ResumesRefl(visited, Now());
      if ok {
        if Calmly() { CalmFinalize(disk, catalog, k, limits.maxCandidates, sizes); }
        FinalizeKeeps(disk, catalog, k, sizes);
        FinalizeLosesRows(disk, catalog, k, sizes);
        WriteCatalog(final.value);
        RelyRows(final.value, catalog);
        DiskRelyEmptier(old(disk), disk, final.value);
        if cleared {
          NarrowsFinalize(old(disk), old(catalog), k);
          NarrowsRely(old(disk), disk, final.value, catalog);
          NarrowsTrans(old(Now()), World(old(disk), final.value), Now());
          FinalizedRunResumes(visited, |old(visited)|, old(Now()), k, sizes);
          FinalizedResumes(old(Now()), Now(), k, sizes);
        }
      }
    }

    /** Deletes the bytes under an entry or blob claim: entry before blob. */
    method DeleteClaimed(k: Claim) returns (ok: bool)
      requires Valid() && Pending(catalog, k) && !k.MaterializationClaim?
      modifies this
      ensures Valid() && old(visited) <= visited && Narrows(old(Now()), Now())
      ensures Rely(old(catalog), catalog) && ok && Cleared(disk, k)
      ensures disk.entries == old(disk.entries) - EntriesUnder(k) && disk.blobs == old(disk.blobs) - BlobsUnder(k)
      ensures ResumesRun(visited, |old(visited)|, old(Now())) && Resumes(old(Now()), Now())
    {
      hide Pending, Narrows, Rely, Cleared, EntriesUnder, BlobsUnder, ResumesRun, Resumes;
      if k.EntryClaim? { ok := DeleteClaimedEntry(k); } else { ok := DeleteClaimedBlob(k); }
    }

    method DeleteClaimedEntry(k: Claim) returns (ok: bool)
      requires Valid() && Pending(catalog, k) && k.EntryClaim?
      modifies this
      ensures Valid() && old(visited) <= visited && Narrows(old(Now()), Now())
      ensures Rely(old(catalog), catalog) && ok && Cleared(disk, k)
      ensures disk.entries == old(disk.entries) - EntriesUnder(k) && disk.blobs == old(disk.blobs) - BlobsUnder(k)
      ensures ResumesRun(visited, |old(visited)|, old(Now())) && Resumes(old(Now()), Now())
    {
      hide Rely, AllConsistent, AllCalm, Calm, Calmly, Narrows, Doomed, EntryDeletable, Pending, Spares, SparesRun,
        Resumes, ResumesRun, Loose, Emptier, TidyCatalog, TidyDisk, Backed, WellLinked, DirectoryAt;
      PendingDooms(catalog, k, sizes);
      ClaimedEntryDeletable(disk, catalog, k, sizes);
      hide Consistent;
      ok := DeleteEntry(k.entryId, k.blobId);
      ghost var first, seen := Now(), visited;
      SparesEmptier(old(disk), disk, old(catalog), {k.entryId}, {}, {});
      NarrowsDisk(old(disk), disk, old(catalog), catalog);
      ClaimResumes(seen, |old(visited)|, old(Now()), Now(), k, {k.entryId}, {}, sizes);
      assert disk.blobs == disk.blobs - {};
      if !k.shared {
        RelyPending(old(catalog), catalog, k);
        SoleBlobFree(disk, catalog, k, sizes);
        ok := DeleteClaimedBlobFile(k, old(Now()), old(visited));
      }
    }

    method DeleteClaimedBlobFile(k: Claim, ghost was: World, ghost seen: seq<World>) returns (ok: bool)
      requires Valid() && Pending(catalog, k) && !k.MaterializationClaim? && SubjectOf(k) == BlobSubject(k.blobId)
      requires Loose(disk, catalog, k.blobId)
      requires k.blobId !in disk.blobs || disk.blobs[k.blobId] == (k.blobId, k.blobSize)
      requires seen <= visited && Narrows(was, Now()) && Rely(was.catalog, catalog)
      requires ResumesRun(visited, |seen|, was) && Resumes(was, Now())
      modifies this
      ensures Valid() && old(visited) <= visited && Narrows(was, Now()) && Rely(was.catalog, catalog) && ok
      ensures disk.entries == old(disk.entries) && disk.blobs == old(disk.blobs) - {k.blobId}
      ensures ResumesRun(visited, |seen|, was) && Resumes(was, Now())
    {
      hide Rely, Consistent, AllConsistent, AllCalm, Calm, Calmly, Narrows, Pending, Spares, SparesRun, Resumes,
        ResumesRun, Loose, Emptier;
      ok := DeleteBlob(k.blobId, k.blobSize);
      SparesEmptier(old(disk), disk, old(catalog), {}, {k.blobId}, {});
      NarrowsDisk(old(disk), disk, old(catalog), catalog);
      NarrowsTrans(was, old(Now()), Now());
      RelyTrans(was.catalog, old(catalog), catalog);
      ClaimResumes(visited, |old(visited)|, old(Now()), Now(), k, {}, {k.blobId}, sizes);
      ResumesRunJoin(old(visited), visited, |seen|, was, old(Now()));
      ResumesTrans(was, old(Now()), Now());
    }

    method DeleteClaimedBlob(k: Claim) returns (ok: bool)
      requires Valid() && Pending(catalog, k) && k.BlobClaim?
      modifies this
      ensures Valid() && old(visited) <= visited && Narrows(old(Now()), Now())
      ensures Rely(old(catalog), catalog) && ok && Cleared(disk, k)
      ensures disk.entries == old(disk.entries) - EntriesUnder(k) && disk.blobs == old(disk.blobs) - BlobsUnder(k)
      ensures ResumesRun(visited, |old(visited)|, old(Now())) && Resumes(old(Now()), Now())
    {
      LoneBlobFree(disk, catalog, k, sizes);
      StandsStill(disk, catalog, sizes);
      NarrowsRefl(Now());
      ResumesRefl(visited, Now());
      hide Rely, Consistent, AllConsistent, AllCalm, Calm, Calmly, Narrows, Pending, Resumes, ResumesRun, Loose;
      ok := DeleteClaimedBlobFile(k, old(Now()), old(visited));
      assert disk.entries == disk.entries - {};
    }

    /** Carries out a claim. For an entry or a blob it completes unless the
        claimed entry has been pinned; for a materialization it completes unless
        its files are not the claimed ones. */
    method ExecuteEviction(k: Claim) returns (ok: bool, ghost claimed: Snapshot)
      requires Valid() && Pending(catalog, k)
      modifies this
      ensures Valid() && old(visited) <= visited && Narrows(old(Now()), Now())
      ensures Rely(old(catalog), claimed) && Consistent(World(old(disk), claimed), sizes)
      ensures ok ==> FinalizeEviction(claimed, k).Some? && Rely(FinalizeEviction(claimed, k).value, catalog)
      ensures !ok ==> Rely(old(catalog), catalog)
      ensures if ok then Rows(catalog) < Rows(old(catalog)) else Rows(catalog) == Rows(old(catalog))
      ensures !k.MaterializationClaim? ==> (ok <==> !ClaimedPinned(old(catalog), k))
      ensures k.MaterializationClaim? ==>
        (ok <==>
          MaterializationDeletable(DirectoryAt(old(disk.materializations), k.materializationId), k.materializationId,
                   BlobIdentity(k.contentId, k.contentSize), old(disk.blobs), old(disk.entries)))
      ensures Calmly() && !k.MaterializationClaim? ==> ok
      ensures ok ==> Cleared(disk, k)
      ensures disk.entries == old(disk.entries) - EntriesUnder(k) && disk.blobs == old(disk.blobs) - BlobsUnder(k)
      ensures ResumesRun(visited, |old(visited)|, old(Now())) && Resumes(old(Now()), Now())
    {
      assert k.MaterializationClaim? ==> BeingDeleted(catalog, k.materializationId);
      assert Calmly() ==> !ClaimedPinned(catalog, k);
      hide Rely, Consistent, AllConsistent, AllCalm, Calm, Calmly, Pending, FinalizeEviction, Narrows, ClaimedPinned,
        MaterializationDeletable, BeingDeleted, Resumes, ResumesRun, Cleared, Emptier;
      if k.MaterializationClaim? {
        ok := DeleteCopy(k);
      } else {
        ok := DeleteClaimed(k);
      }
      ghost var first, seen := Now(), visited;
      claimed := catalog;
      RelyConsistent(old(disk), old(catalog), claimed, sizes);
      RelyRows(old(catalog), claimed);
      if ok {
        RelyPending(old(catalog), catalog, k);
        RelyPinned(old(catalog), catalog, k);
        MaterializationNotPinned(catalog, k);
        ok := Finalize(k);
        ClearedStays(first.disk, disk, k);
        NarrowsTrans(old(Now()), first, Now());
        ResumesRunJoin(seen, visited, |old(visited)|, old(Now()), first);
        ResumesTrans(old(Now()), first, Now());
        if !ok { RelyTrans(old(catalog), claimed, catalog); }
      }
    }

    /** Deletes the files under a materialization claim. */
    method DeleteCopy(k: Claim) returns (ok: bool)
      requires Valid() && Pending(catalog, k) && k.MaterializationClaim?
      modifies this
      ensures Valid() && old(visited) <= visited && Narrows(old(Now()), Now()) && Rely(old(catalog), catalog)
      ensures ok <==>
        MaterializationDeletable(DirectoryAt(old(disk.materializations), k.materializationId), k.materializationId,
                        BlobIdentity(k.contentId, k.contentSize), old(disk.blobs), old(disk.entries))
      ensures ok ==> Cleared(disk, k)
      ensures disk.entries == old(disk.entries) - EntriesUnder(k) && disk.blobs == old(disk.blobs) - BlobsUnder(k)
      ensures ResumesRun(visited, |old(visited)|, old(Now())) && Resumes(old(Now()), Now())
    {
      hide Rely, Consistent, AllConsistent, AllCalm, Calm, Calmly, Pending, Narrows, MaterializationDeletable,
        BeingDeleted, Resumes, ResumesRun, Spares, SparesRun, DeletableRun, Emptier, DirectoryAt;
      ClaimedCopy(catalog, k);
      ok := DeleteMaterialization(k.materializationId, BlobIdentity(k.contentId, k.contentSize));
      assert disk.entries == disk.entries - {} && disk.blobs == disk.blobs - {};
      SparesEmptier(old(disk), disk, old(catalog), {}, {}, {k.materializationId});
      NarrowsDisk(old(disk), disk, old(catalog), catalog);
      CopyRunResumes(visited, |old(visited)|, old(Now()), k, sizes);
      ResumesRefl(visited, Now());
      if ok { CopyGoneResumes(old(Now()), Now(), k, sizes); }
    }

    /** Carries out listed claims one by one, stopping at the first that fails. */
    method ExecuteClaims(claims: seq<Claim>) returns (ok: bool, completed: nat)
      requires Valid() && DistinctSubjects(claims) && StillPending(catalog, catalog, claims, 0)
      modifies this
      ensures Valid() && old(visited) <= visited && Narrows(old(Now()), Now())
      ensures completed <= |claims| && (ok <==> completed == |claims|)
      ensures claims == [] ==> Now() == old(Now())
      ensures forall i | 0 <= i < completed :: !ClaimedPinned(old(catalog), claims[i])
      ensures !ok ==> claims[completed].MaterializationClaim? || ClaimedPinned(old(catalog), claims[completed])
      ensures WorkedOff(old(catalog), catalog, claims, completed) && Rows(catalog) + completed <= Rows(old(catalog))
      ensures (forall k | k in claims :: Recoverable(old(Now()), k)) ==> ok
      ensures forall i | 0 <= i < completed :: Cleared(disk, claims[i])
      ensures ResumesRun(visited, |old(visited)|, old(Now())) && Resumes(old(Now()), Now())
    {
      hide Consistent, AllConsistent, Valid, AllCalm, Calm, Calmly, Narrows, Pending, ClaimedPinned, FinalizeEviction,
        Rely, StillPending, DistinctSubjects, WorkedOff, Recoverable, Resumes, ResumesRun, MaterializationDeletable,
        DirectoryAt, Rows, Cleared, EntriesUnder, BlobsUnder;
      NarrowsRefl(Now());
      ResumesRefl(visited, Now());
      WorkedOffNone(catalog, claims);
      completed := 0;
      while completed < |claims|
        invariant completed <= |claims| && Valid() && old(visited) <= visited && Narrows(old(Now()), Now())
        invariant completed == 0 ==> Now() == old(Now())
        invariant StillPending(old(catalog), catalog, claims, completed)
        invariant forall i | 0 <= i < completed :: !ClaimedPinned(old(catalog), claims[i])
        invariant WorkedOff(old(catalog), catalog, claims, completed) && Rows(catalog) + completed <= Rows(old(catalog))
        invariant forall i | 0 <= i < completed :: Cleared(disk, claims[i])
        invariant ResumesRun(visited, |old(visited)|, old(Now())) && Resumes(old(Now()), Now())
      {
        ghost var c, d, w, seen := catalog, disk, Now(), visited;
        NextPending(old(catalog), catalog, claims, completed);
        assert claims[completed] in claims;
        if Recoverable(old(Now()), claims[completed]) { RecoverableNow(old(Now()), w, claims[completed]); }
        ghost var claimed;
        ok, claimed := ExecuteEviction(claims[completed]);
        NarrowsTrans(old(Now()), w, Now());
        forall i | 0 <= i < completed ensures Cleared(disk, claims[i]) { ClearedThen(w, Now(), claims[i]); }
        ResumesRunJoin(seen, visited, |old(visited)|, old(Now()), w);
        ResumesTrans(old(Now()), w, Now());
        WorkedOffStep(old(catalog), c, claimed, catalog, claims, completed, ok, d, sizes);
        if !ok { return; }
        OthersPending(old(catalog), c, claimed, catalog, claims, completed, d, sizes);
        completed := completed + 1;
      }
      ok := true;
    }

    /** Resumes the durable claims, at most `limit` of them. */
    method RecoverPendingEvictions(limit: int) returns (ok: bool, completed: nat, ghost listed: seq<Claim>)
      requires Valid()
      modifies this
      ensures Valid() && old(visited) <= visited && Narrows(old(Now()), Now())
      ensures forall k | k in listed :: Pending(old(catalog), k)
      ensures ok ==> completed == |listed| && 0 < limit <= MAX_PENDING
      ensures Rows(catalog) + completed <= Rows(old(catalog))
      ensures ok && completed == 0 ==> Settled(catalog) && Now() == old(Now())
      ensures (exists k | k in listed :: ClaimedPinned(old(catalog), k)) ==> !ok
      ensures !ok && 0 < limit <= MAX_PENDING ==>
        exists k | k in listed :: k.MaterializationClaim? || ClaimedPinned(old(catalog), k)
      ensures 0 < limit ==> |listed| <= limit && DistinctSubjects(listed)
      ensures ok ==> WorkedOff(old(catalog), catalog, listed, |listed|)
      ensures ok ==> forall k | k in listed :: Cleared(disk, k)
      ensures ok && (|listed| < limit || Few(old(catalog), limit)) ==> Settled(catalog)
      ensures Calmly() && ok && limit == limits.maxCandidates ==> Settled(catalog)
      ensures 0 < limit <= MAX_PENDING && (forall k | k in listed :: Recoverable(old(Now()), k)) ==> ok
      ensures ResumesRun(visited, |old(visited)|, old(Now())) && Resumes(old(Now()), Now())
    {
      hide Consistent, AllConsistent, AllCalm, Calm, Calmly, Narrows, Pending, ClaimedPinned, DistinctSubjects,
        WorkedOff, Recoverable, Resumes, ResumesRun, Few, Settled, Covers, StillPending, Cleared, WellLinked, Rows;
      NarrowsRefl(Now());
      ResumesRefl(visited, Now());
      LinkedNow(disk, catalog, sizes);
      var list := ListPendingEvictions(catalog, limit);
      completed, listed := 0, [];
      if list.None? {
        NoneListed();
        return false, completed, listed;
      }
      listed := list.value;
      if Calmly() { CalmFew(catalog, limits.maxCandidates); }
      AllPending(catalog, list.value);
      ok, completed := ExecuteClaims(list.value);
      if !ok { assert listed[completed] in listed; }
      LinkedNow(disk, catalog, sizes);
      if ok {
        ListWorkedOff(old(catalog), catalog, listed, limit);
        ListCleared(disk, listed);
      }
    }

    /** Claims and carries out planned targets; a target that is protected by now
        is passed over. */
    method EvictTargets(targets: seq<EvictionTarget>, at: Time)
      returns (ok: bool, progress: bool, ghost evicted: seq<Claim>)
      requires Valid() && (Calmly() ==> Settled(catalog))
      modifies this
      ensures Valid() && old(visited) <= visited && Narrows(old(Now()), Now())
      ensures if progress then Rows(catalog) < Rows(old(catalog)) else Rows(catalog) == Rows(old(catalog))
      ensures ok && targets != [] && BeginEviction(old(catalog), targets[0], at).Some? ==> progress
      ensures !ok ==> exists t | t in targets :: t.MaterializationEviction?
      ensures Calmly() && ok ==> Settled(catalog)
      ensures (progress <==> evicted != []) && forall k | k in evicted :: TargetOf(k) in targets && Cleared(disk, k)
      ensures ok ==> AllHandled(targets, |targets|, evicted, visited, |old(visited)| - 1)
    {
      hide Consistent, AllConsistent, AllCalm, Calm, Calmly, Narrows, Pending, ClaimedPinned, FinalizeEviction,
        BeginEviction, Rely, OnlySubject, Settled, MaterializationDeletable, DirectoryAt, Rows, Resumes, ResumesRun,
        Cleared, Emptier, EntriesUnder, BlobsUnder, Handled, Claimable;
      NarrowsRefl(Now());
      progress, evicted := false, [];
      for i := 0 to |targets|
        invariant Valid() && old(visited) <= visited && Narrows(old(Now()), Now())
        invariant if progress then Rows(catalog) < Rows(old(catalog)) else Rows(catalog) == Rows(old(catalog))
        invariant i == 0 ==> catalog == old(catalog)
        invariant 0 < i && BeginEviction(old(catalog), targets[0], at).Some? ==> progress
        invariant Calmly() ==> Settled(catalog)
        invariant (progress <==> evicted != []) && forall k | k in evicted :: TargetOf(k) in targets && Cleared(disk, k)
        invariant AllHandled(targets, i, evicted, visited, |old(visited)| - 1)
      {
        assert targets[i] in targets;
        ghost var w, before, seen := Now(), evicted, visited;
        LinkedNow(disk, catalog, sizes);
        BeginExact(catalog, targets[i], at);
        ghost var settled := Settled(catalog);
        var claim := Claim(targets[i], at);
        NarrowsTrans(old(Now()), w, Now());
        forall k | k in evicted ensures Cleared(disk, k) { ClearedNarrows(w, Now(), k); }
        if claim.Some? {
          w := Now();
          var done, claimed := ExecuteEviction(claim.value);
          NarrowsTrans(old(Now()), w, Now());
          forall k | k in evicted ensures Cleared(disk, k) { ClearedNarrows(w, Now(), k); }
          if !done { return false, progress, evicted; }
          if settled { SettledAgain(w, claimed, claim.value, Now(), sizes); }
          progress, evicted := true, evicted + [claim.value];
        }
        HandledMore(targets, i, before, evicted, seen, visited, |old(visited)| - 1);
      }
      ok := true;
    }

    /** Runs the catalog's claiming transaction, if it is granted. */
    method Claim(t: EvictionTarget, at: Time) returns (claim: Option<Claim>)
      requires Valid() && (Calmly() ==> Settled(catalog))
      modifies this
      ensures Valid() && old(visited) <= visited && Narrows(old(Now()), Now())
      ensures claim.Some? ==> Pending(catalog, claim.value)
      ensures claim.Some? <==> BeginEviction(old(catalog), t, at).Some?
      ensures Rows(catalog) == Rows(old(catalog))
      ensures claim.None? ==> Now() == old(Now())
      ensures claim.Some? ==> !ClaimedPinned(catalog, claim.value)
      ensures claim.Some? ==> TargetOf(claim.value) == t
      ensures claim.Some? && Settled(old(catalog)) ==> OnlySubject(catalog, SubjectOf(claim.value))
    {
      NarrowsRefl(Now());
      LinkedNow(disk, catalog, sizes);
      assert Calmly() ==> 1 <= limits.maxCandidates;
      hide Rely, DiskRely, Consistent, AllConsistent, AllCalm, Calm, Calmly, Pending, BeginEviction, Narrows, Settled,
        OnlySubject, ClaimedPinned, WellLinked;
      var begun := BeginEviction(catalog, t, at);
      claim := None;
      if begun.Some? {
        var (c, k) := begun.value;
        BeginTarget(catalog, t, at);
        if Calmly() { BeginCalm(catalog, t, at, limits.maxCandidates); }
        BeginKeeps(disk, catalog, t, at, sizes);
        NarrowsBegin(disk, catalog, t, at);
        BeginRows(catalog, t, at);
        WriteCatalog(c);
        RelyRows(c, catalog);
        RelyPending(c, catalog, k);
        DiskRelyEmptier(old(disk), disk, c);
        NarrowsRely(old(disk), disk, c, catalog);
        NarrowsTrans(old(Now()), World(old(disk), c), Now());
        GrantedClaim(old(catalog), t, at, catalog);
        claim := Some(k);
      }
    }

    /** One look at the catalog: admitted as it is, refused, or targets to evict. */
    method Decide(a: Admission, mgr: Option<LeaseManager>)
      returns (d: Decision, ghost plan: Option<EvictionPlan>, ghost picks: seq<Candidate>)
      requires Valid()
      ensures d.Accepted? <==> Admissible(catalog, a, limits, mgr)
      ensures d.Accepted? ==> Met(catalog, Some(a), limits)
      ensures d.Refused? ==> NoRoom(catalog, Some(a), limits, mgr)
      ensures d.MakeRoom? ==> d.targets != [] && PlanTakes(catalog, Some(a), limits, mgr, d.targets)
    {
      hide ValidSnapshot, Reports, Fits, Consistent, AllConsistent, WellShaped, Planned, Admitted, NormalizeAdmission,
        AdmissionHolds, Plannable, Incoming, AllCalm, Calm, Calmly, Greedy, PlanTakes, Countable;
      d, plan, picks := Refused, None, [];
      if MAX_RECORDS < |catalog.blobs| + |catalog.entries| + |catalog.materializations| + |catalog.references|
        + |catalog.leases| { return; }
      var valid := Validate(catalog);
      if !valid { return; }
      LinkedNow(disk, catalog, sizes);
      NormalizeExact(catalog, a);
      NormalizedIsIncoming(catalog, a);
      var candidate := NormalizeAdmission(catalog, a);
      if candidate.None? {
        ConflictRefuses(catalog, a, limits);
        return;
      }
      if Nothing(candidate.value) {
        NothingNew(catalog, a, limits);
        return Accepted, plan, picks;
      }
      var planned, chosen := PlanAdmission(catalog, candidate.value, limits, mgr);
      PlannableMeans(catalog, candidate.value, limits, mgr);
      if planned.Err? { return; }
      plan, picks := Some(planned.value), chosen;
      AdmissionExact(catalog, a, candidate.value, limits, mgr, planned.value, picks);
      if planned.value.satisfied && planned.value.targets == [] { return Accepted, plan, picks; }
      if planned.value.targets != [] { return MakeRoom(planned.value.targets), plan, picks; }
    }

    /** Makes room for records that are not visible yet, in at most four batches. When
        it stops short of that, `stop` says why. */
    method Admit(a: Admission, managers: nat -> Option<LeaseManager>, at: Time) returns (ok: bool, ghost stop: Stop)
      requires Valid()
      modifies this
      ensures Valid() && old(visited) <= visited && Narrows(old(Now()), Now())
      ensures ok ==> AdmissionHolds(catalog, a, limits)
      ensures Calmly() && ok ==> Settled(catalog)
      ensures Ready(old(catalog), a, limits, managers(0)) ==> ok && Now() == old(Now())
      ensures Concluded(ok, stop, a, limits, visited, |old(visited)| - 1, old(catalog), ADMISSION_MAX_BATCHES)
      ensures FromBatch(stop, managers, ADMISSION_MAX_BATCHES)
    {
      hide *;
      LastWorld();
      var done, why := AdmitBatches(a, managers, at);
      LastWorld();
      BatchesMean(a, limits, managers(0), done, why, Calmly(), old(Now()), old(visited), Now(), visited);
      if done.Some? { return done.value, why; }
      var decision, _, _ := Decide(a, managers(ADMISSION_MAX_BATCHES));
      ok := decision.Accepted?;
      stop := if ok then Enough else OutOfBatches;
      LastWorld();
      if ok { AdmissibleHolds(catalog, a, limits, managers(ADMISSION_MAX_BATCHES)); }
      AtTheEnd(ok, a, limits, visited, |old(visited)| - 1, old(catalog), ADMISSION_MAX_BATCHES);
      EndOfManager(stop, managers(0));
      OneBatch(stop, managers, 0, ADMISSION_MAX_BATCHES);
    }

    /** The batches, up to one that settles the matter. */
    method AdmitBatches(a: Admission, managers: nat -> Option<LeaseManager>, at: Time)
      returns (done: Option<bool>, ghost stop: Stop)
      requires Valid()
      modifies this
      ensures Valid() && (done.Some? ==> FromBatch(stop, managers, ADMISSION_MAX_BATCHES))
      ensures BatchesRun(a, limits, managers(0), done, stop, ADMISSION_MAX_BATCHES, Calmly(), old(Now()), old(visited),
                Now(), visited)
    {
      hide *;
      done, stop := None, Enough;
      ghost var w0, v0, m0 := Now(), visited, managers(0);
      LastWorld();
      NoBatchYet(a, limits, m0, stop, Calmly(), w0, v0);
      for batch := 0 to ADMISSION_MAX_BATCHES
        invariant Valid() && done.None?
        invariant BatchesRun(a, limits, m0, done, stop, batch, Calmly(), w0, v0, Now(), visited)
      {
        ghost var w, v, before := Now(), visited, stop;
        done, stop := AdmitBatch(a, managers(batch), at);
        NextBatch(a, limits, m0, managers(batch), before, done, stop, batch, Calmly(), w0, v0, w, v, Now(), visited);
        if done.Some? {
          OneBatch(stop, managers, batch, ADMISSION_MAX_BATCHES);
          return;
        }
      }
    }

    /** One batch: recover, decide, evict. It yields nothing if there is to be another. */
    method AdmitBatch(a: Admission, mgr: Option<LeaseManager>, at: Time) returns (done: Option<bool>, ghost stop: Stop)
      requires Valid()
      modifies this
      ensures Valid() && (done.Some? ==> OfManager(stop, mgr))
      ensures BatchRun(a, limits, mgr, done, stop, Calmly(), old(Now()), old(visited), Now(), visited)
    {
      hide Consistent, AllConsistent, AllCalm, Calm, Calmly, Narrows, Pending, ClaimedPinned, DistinctSubjects,
        WorkedOff,
        Recoverable, Resumes, ResumesRun, Few, Settled, Cleared, AdmissionHolds, Admissible, Ready, Rows, PlanTakes,
        NoRoom, BeginEviction, AllHandled;
      var recovered, completed, listed := RecoverPendingEvictions(limits.maxCandidates);
      if Ready(old(catalog), a, limits, mgr) { NothingListed(old(catalog), a, limits, mgr, listed); }
      done := Some(false);
      if !recovered {
        if 0 < limits.maxCandidates <= MAX_PENDING {
          ghost var k :| k in listed && (k.MaterializationClaim? || ClaimedPinned(old(catalog), k));
          return done, RecoveryFailed(|old(visited)| - 1, k);
        }
        return done, BadLimit;
      }
      var decision, _, _ := Decide(a, mgr);
      if decision.Accepted? { return Some(true), Enough; }
      if decision.Refused? { return done, NothingToTake(mgr); }
      ghost var w, i := Now(), |visited| - 1;
      var evicted, progress, _ := EvictTargets(decision.targets, at);
      NarrowsTrans(old(Now()), w, Now());
      if !evicted { return done, EvictionFailed(i, mgr, decision.targets); }
      if !progress {
        HandledLater(decision.targets, visited, i, |old(visited)| - 1);
        return done, AllRefused(i, mgr, decision.targets);
      }
      done, stop := None, Enough;
    }

    /** Stores the bytes, or finds them stored. */
    method PublishBlob(id: string, size: Int64) returns (ok: bool, deduplicated: bool)
      requires Valid() && size == sizes(id)
      modifies this
      ensures Valid() && old(visited) <= visited && ok
      ensures deduplicated <==> id in old(disk.blobs)
      ensures disk.blobs == old(disk.blobs)[id := (id, size)] && disk.entries == old(disk.entries)
      ensures Rely(old(catalog), catalog)
    {
      BlobsTidy(disk, catalog, sizes);
      StandsStill(disk, catalog, sizes);
      hide Rely, Consistent, AllConsistent;
      deduplicated := id in disk.blobs;
      ok := deduplicated ==> disk.blobs[id] == (id, size);
      if !deduplicated {
        AddBlobKeeps(disk, catalog, id, sizes);
        WriteDisk(disk.(blobs := disk.blobs[id := (id, size)]));
      }
    }

    /** Links an entry's manifest next to an intact blob; an equal manifest that
        is there already will do, another one refuses. */
    method PublishEntryManifest(id: string, blobId: string, size: Int64) returns (ok: bool)
      requires Valid() && size == sizes(blobId) && forall e | e in catalog.entries && e.id == id :: e.blobId == blobId
      modifies this
      ensures Valid() && old(visited) <= visited && Rely(old(catalog), catalog) && disk.blobs == old(disk.blobs)
      ensures ok <==>
        blobId in old(disk.blobs)
          && (!HasManifest(old(disk), id) || Names(old(disk).entries[id].children[MANIFEST], blobId))
      ensures ok ==> HasManifest(disk, id) && Names(disk.entries[id].children[MANIFEST], blobId) && blobId in disk.blobs
      ensures !ok ==> disk == old(disk)
    {
      BlobsTidy(disk, catalog, sizes);
      StandsStill(disk, catalog, sizes);
      ManifestsTidy(disk, catalog, id, sizes);
      hide Rely, Consistent, AllConsistent, AllCalm, Calm, Calmly;
      if blobId !in disk.blobs || disk.blobs[blobId] != (blobId, size) { return false; }
      if HasManifest(disk, id) {
        return disk.entries[id].children[MANIFEST].data == EntryManifest(id, blobId, size);
      }
      LinkManifest(id, blobId, size);
      ok := true;
    }

    /** Makes the entry directory if need be, and writes the manifest into it. */
    method LinkManifest(id: string, blobId: string, size: Int64)
      requires Valid() && size == sizes(blobId) && forall e | e in catalog.entries && e.id == id :: e.blobId == blobId
      requires blobId in disk.blobs && !HasManifest(disk, id)
      modifies this
      ensures Valid() && old(visited) <= visited && Rely(old(catalog), catalog) && disk.blobs == old(disk.blobs)
      ensures HasManifest(disk, id) && Names(disk.entries[id].children[MANIFEST], blobId)
    {
      StandsStill(disk, catalog, sizes);
      hide Rely, Consistent, AllConsistent, AllCalm, Calm, Calmly, SparesRun, Spares, Names;
      if id !in disk.entries {
        EmptyDirectoryKeeps(disk, catalog, id, Present(true, map[]), sizes);
        WriteEntry(id, Present(true, map[]));
        RelyEntry(old(catalog), catalog, id, blobId);
      }
      ghost var made := catalog;
      AddManifestKeeps(disk, catalog, id, blobId, sizes);
      ghost var d := disk;
      WriteEntry(id, Present(true, map[MANIFEST := EntryFile(id, blobId, size)]));
      ManifestWritten(d, disk, id, blobId, size);
      RelyTrans(old(catalog), made, catalog);
    }

    /** Publishes a complete entry: bytes, room, manifest, then the catalog. */
    method PublishComplete(blob: Blob, entry: Entry, managers: nat -> Option<LeaseManager>, at: Time)
      returns (ok: bool, ghost admitted: Option<World>)
      requires Valid() && blob.size == sizes(blob.id) && blob.state == BlobPublished && entry.blobId == blob.id
      modifies this
      ensures Valid() && old(visited) <= visited
      ensures ok ==> admitted.Some?
      ensures admitted.Some? ==>
        && admitted.value in visited
        && AdmissionHolds(admitted.value.catalog, Admission(Some(blob), Some(entry), None), limits)
      ensures admitted.None? && blob.id !in old(disk.blobs) ==> blob.id !in disk.blobs
      ensures admitted.Some? && !ok ==> exists w | w in visited :: PublishRefused(w, blob, entry)
      ensures ok ==> exists i | |old(visited)| <= i < |visited| :: PublishedAs(visited[i], blob, entry)
      ensures ok ==> PublishedBlob(catalog, blob.id) && HasEntry(catalog, entry.id, blob.id)
      ensures ok ==> blob.id in disk.blobs && HasManifest(disk, entry.id)
    {
      hide Rely, Consistent, AllConsistent, AllCalm, Calm, Calmly, Settled, Loose, Narrows, AdmissionHolds,
        PublishedBlob, HasEntry, HasManifest, DiskRely, SparesRun, Spares, PublishedAs, PublishRefused, Explains;
      ok, admitted := false, None;
      var stored, deduplicated := PublishBlob(blob.id, blob.size);
      ghost var c, d := catalog, disk;
      var a := Admission(Some(blob), Some(entry), None);
      var accepted, _ := Admit(a, managers, at);
      if !accepted {
        if !deduplicated {
          LooseAfter(old(disk), old(catalog), d, c, disk, catalog, blob.id, sizes);
          BlobsTidy(disk, catalog, sizes);
          var removed := DeleteBlob(blob.id, blob.size);
        }
        return;
      }
      ghost var i := |visited| - 1;
      admitted := Some(visited[i]);
      AdmittedEntry(disk, catalog, a, limits, sizes);
      ok := PublishRecords(blob, entry);
      assert admitted.value == visited[i];
    }

    /** What follows an admission: the manifest, then the two records. */
    method PublishRecords(blob: Blob, entry: Entry) returns (ok: bool)
      requires Valid() && blob.size == sizes(blob.id) && blob.state == BlobPublished && entry.blobId == blob.id
      requires Calmly() ==> Settled(catalog)
      requires forall e | e in catalog.entries && e.id == entry.id :: e.blobId == blob.id
      modifies this
      ensures Valid() && old(visited) <= visited
      ensures !ok ==> PublishRefused(Now(), blob, entry)
      ensures ok ==> exists i | |old(visited)| <= i < |visited| :: PublishedAs(visited[i], blob, entry)
      ensures ok ==> PublishedBlob(catalog, blob.id) && HasEntry(catalog, entry.id, blob.id)
      ensures ok ==> blob.id in disk.blobs && HasManifest(disk, entry.id)
    {
      hide Rely, Consistent, AllConsistent, AllCalm, Calm, Settled, Publish, PublishedBlob, HasEntry, HasManifest,
        Names, DiskRely, PublishedAs, PublishConflicts, WellLinked;
      ok := PublishEntryManifest(entry.id, blob.id, blob.size);
      if !ok {
        assert PublishRefused(Now(), blob, entry) by { ManifestRefuses(Now(), blob, entry); }
        return;
      }
      LinkedNow(disk, catalog, sizes);
      PublishExact(catalog, blob, entry);
      var published := Publish(catalog, blob, entry);
      if published.None? { return false; }
      if Calmly() {
        SettledStays(old(catalog), catalog);
        CalmPublish(disk, catalog, blob, entry, limits.maxCandidates, sizes);
      }
      PublishKeeps(disk, catalog, blob, entry, sizes);
      PublishVisible(catalog, blob, entry);
      PublishSeen(disk, catalog, blob, entry, sizes);
      ghost var d, seen := disk, visited;
      WriteCatalog(published.value);
      assert PublishedAs(visited[|seen|], blob, entry);
      VisibleStays(published.value, catalog, entry.id, blob.id);
      DiskRelyManifest(d, disk, published.value, entry.id);
    }

    /** Copies an entry's content out for an owner, then makes it reachable and
        leased in the catalog. */
    method PrepareHandoff(entryId: string, id: string, pinned: bool, reference: Reference, lease: Lease,
                          managers: nat -> Option<LeaseManager>, at: Time)
      returns (ok: bool, ghost made: Materialization, ghost admitted: Option<World>)
      requires Valid()
      modifies this
      ensures Valid() && old(visited) <= visited
      ensures ok ==> admitted.Some?
      ensures admitted.Some? ==>
        && admitted.value in visited
        && AdmissionHolds(admitted.value.catalog, Admission(None, None, Some(made)), limits)
      ensures admitted.Some? && !ok ==> exists w | w in visited :: HandoffRefused(w, made, reference, lease)
      ensures ok ==> made.id == id && made.entryId == entryId && made.pinned == pinned && made.state == Clean
      ensures ok ==> exists i | |old(visited)| <= i < |visited| :: HandedOver(visited[i], made, reference, lease)
      ensures ok ==>
        exists m | m in catalog.materializations :: m.id == id && m.entryId == entryId && m.pinned == pinned
      ensures ok ==> HasManifest(disk, entryId)
    {
      hide Consistent, AllConsistent, AllCalm, Calm, Settled, Narrows, AdmissionHolds, Rely, DiskRely, EntryVerified,
        HasManifest, CacheCatalog.PrepareHandoff, EntryRow, BlobRow, ExactCopy, Frozen, CopySeen, Explains,
        HandoffConflicts, SourceVerified, WellLinked;
      ok, admitted := false, None;
      made := Materialization(id, entryId, "", "", 0, Clean, pinned, at, at);
      var e := EntryRow(catalog.entries, entryId);
      if e.None? { return; }
      var b := BlobRow(catalog.blobs, e.value.blobId);
      if b.None? { return; }
      var m := Materialization(id, entryId, b.value.id, b.value.id, b.value.size, Clean, pinned, at, at);
      made := m;
      var accepted, _ := Admit(Admission(None, None, Some(m)), managers, at);
      if !accepted { return; }
      ghost var c, i := catalog, |visited| - 1;
      admitted := Some(visited[i]);
      var created, _ := CreateMaterialization(m);
      assert admitted.value == visited[i];
      if !created {
        assert HandoffRefused(visited[i], m, reference, lease);
        return;
      }
      LinkedNow(disk, catalog, sizes);
      HandoffExact(catalog, m, reference, lease);
      var prepared := CacheCatalog.PrepareHandoff(catalog, m, reference, lease);
      if prepared.None? {
        assert HandoffRefused(visited[|visited| - 1], m, reference, lease);
        return;
      }
      if Calmly() {
        SettledStays(c, catalog);
        CalmHandoff(disk, catalog, m, reference, lease, limits.maxCandidates, sizes);
      }
      HandoffKeeps(disk, catalog, m, reference, lease, sizes);
      HandoffVisible(catalog, m, reference, lease);
      FrozenUntilCataloged(c, catalog, m, reference, lease);
      ghost var seen := visited;
      WriteCatalog(prepared.value);
      assert HandedOver(visited[|seen|], m, reference, lease) && admitted.value == visited[i];
      HandedOutStays(prepared.value, catalog, m);
      MaterializedBacked(disk, catalog, id, entryId, sizes);
      ok := true;
    }

    /** Writes a private copy and its manifest for a verified entry, or finds exactly
        that copy there; any other directory refuses. */
    method CreateMaterialization(m: Materialization) returns (ok: bool, deduplicated: bool)
      requires Valid()
      modifies this
      ensures Valid() && old(visited) <= visited && Rely(old(catalog), catalog)
      ensures disk.blobs == old(disk.blobs) && disk.entries == old(disk.entries)
      ensures deduplicated <==> ExactCopy(old(disk), m)
      ensures ok <==>
        deduplicated || (DirectoryAt(old(disk.materializations), m.id).Absent? && SourceVerified(old(disk), m))
      ensures deduplicated || !ok ==> Now() == old(Now()) && visited == old(visited)
      ensures ok && !deduplicated ==> CopySeen(visited, |old(visited)|, m)
      ensures ok && Frozen(old(catalog), m.id) ==> ExactCopy(disk, m)
    {
      StandsStill(disk, catalog, sizes);
      hide Rely, Consistent, AllConsistent, AllCalm, Calm, Calmly, ExactCopy, SourceVerified, Frozen;
      deduplicated := ExactCopy(disk, m);
      ok := deduplicated || (DirectoryAt(disk.materializations, m.id).Absent? && SourceVerified(disk, m));
      if ok && !deduplicated {
        WriteOutside(m.id, Present(true, map[CONTENT := ContentFile(m)]));
        ghost var first, seen := catalog, |visited|;
        WriteOutside(m.id, CopyFiles(m));
        RelyTrans(old(catalog), first, catalog);
        WrittenCopy(old(disk), visited[seen].disk, m);
        if Frozen(old(catalog), m.id) {
          RelyFrozen(old(catalog), first);
          WrittenCopy(old(disk), disk, m);
        }
      }
    }

    /** One file of a copy being made. */
    method WriteOutside(id: string, dir: Directory)
      requires Valid()
      modifies this
      ensures Valid() && old(visited) <= visited && Rely(old(catalog), catalog)
      ensures disk.blobs == old(disk.blobs) && disk.entries == old(disk.entries)
      ensures |old(visited)| < |visited| && visited[|old(visited)|].catalog == old(catalog)
      ensures var w := visited[|old(visited)|];
        && w.disk.blobs == old(disk.blobs) && w.disk.entries == old(disk.entries)
        && DirectoryAt(w.disk.materializations, id) == dir
      ensures Frozen(old(catalog), id) ==> DirectoryAt(disk.materializations, id) == dir
    {
      var next := disk.(materializations := disk.materializations[id := dir]);
      DiskOutsideKeeps(disk, next, catalog, sizes);
      hide Rely, Consistent, AllConsistent, AllCalm, Calm, Calmly, Frozen;
      WriteDisk(next);
      assert visited[|old(visited)|] == World(next, old(catalog));
    }

    /** One look at the quota: satisfied, hopeless, or targets to evict. */
    method PlanQuota(mgr: Option<LeaseManager>)
      returns (d: Decision, ghost plan: Option<EvictionPlan>, ghost picks: seq<Candidate>)
      requires Valid()
      ensures d.Accepted? <==> Enforceable(catalog, limits, mgr) && Fits(catalog, limits)
      ensures d.Accepted? ==> Met(catalog, None, limits)
      ensures d.Refused? ==> NoRoom(catalog, None, limits, mgr)
      ensures d.MakeRoom? ==> d.targets != [] && PlanTakes(catalog, None, limits, mgr, d.targets)
    {
      hide Reports, Fits, ValidSnapshot, Consistent, AllConsistent, AllCalm, Calm, Calmly, Countable;
      d, plan, picks := Refused, None, [];
      if MAX_RECORDS < |catalog.blobs| + |catalog.entries| + |catalog.materializations| + |catalog.references|
        + |catalog.leases| { return; }
      var planned, chosen := PlanEvictions(catalog, limits, mgr);
      if planned.Err? { return; }
      plan, picks := Some(planned.value), chosen;
      QuotaExact(catalog, limits, mgr, planned.value, picks);
      if planned.value.satisfied && planned.value.targets == [] { return Accepted, plan, picks; }
      if planned.value.targets != [] { return MakeRoom(planned.value.targets), plan, picks; }
    }

    /** Plans and evicts in bounded batches until the quota holds. When it stops short
        of that, `stop` says why. */
    method EnforceQuota(maxBatches: nat, managers: nat -> Option<LeaseManager>, at: Time)
      returns (ok: bool, ghost stop: Stop)
      requires Valid()
      modifies this
      ensures Valid() && old(visited) <= visited && Narrows(old(Now()), Now())
      ensures ok ==> Fits(catalog, limits)
      ensures (ok <==> stop == Enough) && FromBatch(stop, managers, maxBatches)
      ensures Explains(stop, None, limits, visited, |old(visited)| - 1, old(catalog), maxBatches)
    {
      hide AllConsistent, AllCalm, Calm, Calmly, Consistent, Narrows, Fits, Rows, Explains, FromBatch, OfManager,
        Enforceable, NoRoom, PlanTakes;
      NarrowsRefl(Now());
      var batches, stalled := 0, false;
      stop := OutOfBatches;
      while batches < maxBatches && !stalled
        invariant batches <= maxBatches && Valid() && old(visited) <= visited && Narrows(old(Now()), Now())
        invariant if stalled then
            && stop.AllRefused? && Stands(stop, limits, visited, |old(visited)| - 1)
            && FromBatch(stop, managers, maxBatches)
          else Rows(catalog) + batches <= Rows(old(catalog))
      {
        ghost var w, n := Now(), |visited| - 1;
        var done;
        done, stalled, stop := EnforceBatch(managers(batches), at);
        NarrowsTrans(old(Now()), w, Now());
        if done.Some? || stalled {
          StandsLonger(stop, limits, visited, n, |old(visited)| - 1);
          OneBatch(stop, managers, batches, maxBatches);
        }
        if done.Some? {
          StandsExplains(stop, limits, visited, |old(visited)| - 1, old(catalog), maxBatches);
          return done.value, stop;
        }
        batches := batches + 1;
      }
      var decision, _, _ := PlanQuota(managers(maxBatches));
      ok := decision.Accepted?;
      if ok || !stalled {
        stop := if ok then Enough else OutOfBatches;
        EndOfManager(stop, managers(0));
        OneBatch(stop, managers, 0, maxBatches);
      }
      QuotaEnds(stop, limits, visited, |old(visited)| - 1, old(catalog), maxBatches);
    }

    /** One batch: recover, or else plan and evict. It yields nothing if there is to be
        another, and is stalled if the catalog refused every target. */
    method EnforceBatch(mgr: Option<LeaseManager>, at: Time)
      returns (done: Option<bool>, stalled: bool, ghost stop: Stop)
      requires Valid()
      modifies this
      ensures Valid() && old(visited) <= visited && Narrows(old(Now()), Now())
      ensures done == Some(true) ==> Fits(catalog, limits)
      ensures done.Some? ==> !stalled && (done.value <==> stop == Enough)
      ensures done.None? && !stalled ==> Rows(catalog) < Rows(old(catalog))
      ensures stalled ==> stop.AllRefused?
      ensures done.Some? || stalled ==> Stands(stop, limits, visited, |old(visited)| - 1) && OfManager(stop, mgr)
    {
      hide Consistent, AllConsistent, AllCalm, Calm, Calmly, Narrows, Pending, ClaimedPinned, DistinctSubjects,
        WorkedOff, Recoverable, Resumes, ResumesRun, Few, Settled, Cleared, Fits, Rows, BeginEviction, AllHandled,
        PlanTakes, NoRoom, Enforceable, Reports;
      done, stalled := Some(false), false;
      var recovered, completed, listed := RecoverPendingEvictions(limits.maxCandidates);
      if !recovered {
        if 0 < limits.maxCandidates <= MAX_PENDING {
          ghost var k :| k in listed && (k.MaterializationClaim? || ClaimedPinned(old(catalog), k));
          return done, stalled, RecoveryFailed(|old(visited)| - 1, k);
        }
        return done, stalled, BadLimit;
      }
      if completed > 0 { return None, false, Enough; }
      var decision, _, _ := PlanQuota(mgr);
      if decision.Accepted? { return Some(true), stalled, Enough; }
      if decision.Refused? { return done, stalled, NothingToTake(mgr); }
      ghost var w, i := Now(), |visited| - 1;
      var evicted, progress, _ := EvictTargets(decision.targets, at);
      NarrowsTrans(old(Now()), w, Now());
      if !evicted { return done, stalled, EvictionFailed(i, mgr, decision.targets); }
      if !progress {
        HandledLater(decision.targets, visited, i, |old(visited)| - 1);
        return None, true, AllRefused(i, mgr, decision.targets);
      }
      done, stop := None, Enough;
    }

    /** Completes what a previous process claimed, in at most `maxBatches` rounds.
        It does so whenever the rounds suffice for the claims and each claim can be
        carried out; and wherever it is cut off, it can start again. */
    method RecoverAtStartup(maxBatches: nat) returns (ok: bool)
      requires Valid()
      modifies this
      ensures Valid() && old(visited) <= visited && Narrows(old(Now()), Now())
      ensures ok ==> Settled(catalog) && forall k | Pending(old(catalog), k) :: Cleared(disk, k)
      ensures Recovers(old(Now()), limits.maxCandidates, maxBatches) ==> ok
      ensures Recovers(old(Now()), limits.maxCandidates, maxBatches) ==>
        RecoversRun(visited, |old(visited)|, limits.maxCandidates, maxBatches)
    {
      ghost var good := Recovers(Now(), limits.maxCandidates, maxBatches);
      hide Consistent, AllConsistent, AllCalm, Calm, Calmly, Settled, Narrows, Pending, ClaimedPinned, Recoverable,
        Resumes, ResumesRun, Few, WorkedOff, DistinctSubjects, WellLinked, Covers;
      NarrowsRefl(Now());
      ResumesRefl(visited, Now());
      var batch := 0;
      while batch < maxBatches
        invariant batch <= maxBatches && Valid() && old(visited) <= visited && Narrows(old(Now()), Now())
        invariant ResumesRun(visited, |old(visited)|, old(Now())) && Resumes(old(Now()), Now())
        invariant good ==> AllRecoverable(Now()) && Few(catalog, (maxBatches - batch) * limits.maxCandidates)
      {
        ghost var w, seen := Now(), visited;
        var recovered, completed, listed := RecoverPendingEvictions(limits.maxCandidates);
        NarrowsTrans(old(Now()), w, Now());
        ResumesRunJoin(seen, visited, |old(visited)|, old(Now()), w);
        ResumesTrans(old(Now()), w, Now());
        if !recovered { return false; }
        if completed == 0 { break; }
        if good {
          StillRecoverable(w, Now());
          RoundDone(w.catalog, catalog, listed, limits.maxCandidates, maxBatches - batch);
        }
        batch := batch + 1;
      }
      LinkedNow(disk, catalog, sizes);
      var remaining := ListPendingEvictions(catalog, 1);
      ok := remaining == Some([]);
      if ok { AllCleared(old(Now()), Now()); }
      if good {
        NothingLeft(catalog, remaining.value, maxBatches - batch, limits.maxCandidates);
        RecoveryResumes(visited, |old(visited)|, old(Now()), limits.maxCandidates, maxBatches);
      }
    }

    /** Compares the two stores. */
    method Reconcile() returns (report: Report)
      requires Valid()
      ensures report == ReportOf(Now())
    {
      var blobs := VerifiedBlobs(disk);
      var entries := VerifiedEntries(disk);
      var copies := VerifiedCopies(disk);
      var dbBlobs := set b | b in catalog.blobs :: b.id;
      var dbEntries := set e | e in catalog.entries :: e.id;
      var dbMaterializations := set m | m in catalog.materializations :: m.id;
      hide VerifiedBlobs, VerifiedEntries, VerifiedCopies, Differs, Consistent, AllConsistent;
      var missing, dirty := CompareCopies(disk, copies, catalog.materializations);
      report := Report(blobs - dbBlobs, entries - dbEntries, copies - dbMaterializations, dbBlobs - blobs,
        dbEntries - entries, missing, dirty);
    }

    /** The startup sequence: recover, compare, enforce, compare again. Once the
        recovery is through, the first comparison finds nothing missing. */
    method RunStartupLifecycle(maxBatches: int, managers: nat -> Option<LeaseManager>, at: Time)
      returns (ok: bool, recovered: bool, first: Report, report: Report)
      requires Valid()
      modifies this
      ensures Valid() && old(visited) <= visited
      ensures recovered ==> first.missingBlobs == {} && first.missingEntries == {}
      ensures recovered && NeedsAttention(first) ==> !ok && report == first == ReportOf(Now())
      ensures ok ==> recovered && Fits(catalog, limits) && report == ReportOf(Now()) && !NeedsAttention(report)
    {
      hide *;
      ok, recovered := false, false;
      first := Report({}, {}, {}, {}, {}, {}, {});
      report := first;
      if maxBatches <= 0 || MAX_LIFECYCLE_BATCHES < maxBatches { return; }
      recovered := RecoverAtStartup(maxBatches);
      if !recovered { return; }
      ghost var c := catalog;
      // Releasing the handoffs of dead previews is a run of outside steps.
      Yield();
      SettledStays(c, catalog);
      LastWorld();
      SettledNothingMissing(Now(), sizes);
      first := Reconcile();
      report := first;
      if NeedsAttention(report) { return; }
      var enforced, _ := EnforceQuota(maxBatches, managers, at);
      if !enforced { return; }
      report := Reconcile();
      ok := !NeedsAttention(report);
    }
  }

  const MAX_LIFECYCLE_BATCHES := 64

  datatype Report = Report(
    uncatalogedBlobs: set<string>, uncatalogedEntries: set<string>, uncatalogedMaterializations: set<string>,
    missingBlobs: set<string>, missingEntries: set<string>,
      missingMaterializations: set<string>, dirtyCandidates: set<string>)

  predicate NeedsAttention(r: Report) {
    r.uncatalogedBlobs + r.uncatalogedEntries + r.uncatalogedMaterializations + r.missingBlobs + r.missingEntries
      + r.missingMaterializations + r.dirtyCandidates != {}
  }

  function VerifiedBlobs(d: Disk): set<string> { set id | id in d.blobs && d.blobs[id].0 == id }

  function VerifiedEntries(d: Disk): set<string> { set id | id in d.entries && EntryVerified(id, d.entries[id],
        d.blobs) }

  predicate CopyVerified(d: Disk, id: string) {
    && id in d.materializations && MaterializationVerified(id, d.materializations[id], d.blobs, d.entries)
    && CONTENT in d.materializations[id].children && d.materializations[id].children[CONTENT].private
  }

  /** The copy a materialization would be created as. */
  predicate ExactCopy(d: Disk, m: Materialization) {
    && CopyVerified(d, m.id) && CopyOf(d, m.id) == Content(m.currentBlobId, m.size)
    && d.materializations[m.id].children[MANIFEST].data
       == MaterializationManifest(m.id, m.entryId, m.baselineBlobId, m.currentBlobId, m.size)
  }

  function VerifiedCopies(d: Disk): set<string> { set id | id in d.materializations && CopyVerified(d, id) }

  function CopyOf(d: Disk, id: string): Data
    requires CopyVerified(d, id)
  {
    d.materializations[id].children[CONTENT].data
  }

  predicate Differs(d: Disk, copies: set<string>, m: Materialization)
    requires copies == VerifiedCopies(d)
  {
    m.id in copies && CopyOf(d, m.id) != Content(m.currentBlobId, m.size)
  }

  method CompareCopies(d: Disk, copies: set<string>, ms: seq<Materialization>)
    returns (missing: set<string>, dirty: set<string>)
    requires copies == VerifiedCopies(d)
    ensures missing == (set m | m in ms :: m.id) - copies
    ensures dirty == set m | m in ms && Differs(d, copies, m) :: m.id
  {
    missing, dirty := {}, {};
    hide CopyVerified;
    for i := 0 to |ms|
      invariant missing == (set m | m in ms[..i] :: m.id) - copies
      invariant dirty == set m | m in ms[..i] && Differs(d, copies, m) :: m.id
    {
      var m := ms[i];
      assert ms[..i + 1] == ms[..i] + [m];
      if m.id !in copies {
        missing := missing + {m.id};
      } else if CopyOf(d, m.id) != Content(m.currentBlobId, m.size) {
        dirty := dirty + {m.id};
      }
    }
    assert ms[..|ms|] == ms;
  }

  ghost function ReportOf(w: World): Report {
    var blobs := set b | b in w.catalog.blobs :: b.id;
    var entries := set e | e in w.catalog.entries :: e.id;
    var materializations := set m | m in w.catalog.materializations :: m.id;
    Report(VerifiedBlobs(w.disk) - blobs, VerifiedEntries(w.disk) - entries, VerifiedCopies(w.disk) - materializations,
           blobs - VerifiedBlobs(w.disk), entries - VerifiedEntries(w.disk), materializations - VerifiedCopies(w.disk),
           set m | m in w.catalog.materializations && Differs(w.disk, VerifiedCopies(w.disk), m) :: m.id)
  }

  /** The copy on disk has the digest and the size that are cataloged. */
  predicate AsCataloged(d: Disk, m: Materialization)
    requires CopyVerified(d, m.id)
  {
    var copy := CopyOf(d, m.id);
    copy.Content? && copy.digest == m.currentBlobId && copy.size == m.size
  }

  /** A cataloged copy is listed as missing exactly if it does not verify, and as dirty
      exactly if it does and has another digest or size than cataloged. */
  lemma CopiesListed(w: World, m: Materialization, sizes: Sizes)
    requires Consistent(w, sizes) && m in w.catalog.materializations
    ensures m.id in ReportOf(w).missingMaterializations <==> !CopyVerified(w.disk, m.id)
    ensures m.id in ReportOf(w).dirtyCandidates <==> CopyVerified(w.disk, m.id) && !AsCataloged(w.disk, m)
    ensures m.id !in ReportOf(w).uncatalogedMaterializations
  {
    assert m.id in VerifiedCopies(w.disk) <==> CopyVerified(w.disk, m.id);
    hide CopyVerified, VerifiedBlobs, VerifiedEntries, VerifiedCopies, TidyDisk, Backed;
    forall x | x in w.catalog.materializations && x.id == m.id ensures x == m {
      assert Distinct(w.catalog.materializations, MaterializationKey);
      KeyInjective(w.catalog.materializations, MaterializationKey, x, m);
    }
  }

  /** A comparison asks for attention unless the two stores hold the same verified
      blobs, entries and copies, and every copy is as cataloged. */
  lemma QuietExact(w: World, sizes: Sizes)
    requires Consistent(w, sizes)
    ensures !NeedsAttention(ReportOf(w)) <==>
      && VerifiedBlobs(w.disk) == BlobIds(w.catalog) && VerifiedEntries(w.disk) == EntryIds(w.catalog)
      && VerifiedCopies(w.disk) == MaterializationIds(w.catalog)
      && forall m | m in w.catalog.materializations :: CopyVerified(w.disk, m.id) && AsCataloged(w.disk, m)
  {
    var r := ReportOf(w);
    ListsEqual(w);
    forall m | m in w.catalog.materializations
      ensures m.id in r.missingMaterializations + r.dirtyCandidates <==>
        !(CopyVerified(w.disk, m.id) && AsCataloged(w.disk, m))
    {
      CopiesListed(w, m, sizes);
    }
    assert forall id | id in r.dirtyCandidates :: exists m | m in w.catalog.materializations :: m.id == id;
    hide CopyVerified, AsCataloged, VerifiedBlobs, VerifiedEntries, VerifiedCopies, Consistent, ReportOf;
  }

  /** The first six lists are empty exactly if the identifiers agree. */
  lemma ListsEqual(w: World)
    ensures var r := ReportOf(w);
      && (r.uncatalogedBlobs + r.missingBlobs == {} <==> VerifiedBlobs(w.disk) == BlobIds(w.catalog))
      && (r.uncatalogedEntries + r.missingEntries == {} <==> VerifiedEntries(w.disk) == EntryIds(w.catalog))
      && (r.uncatalogedMaterializations + r.missingMaterializations == {} <==>
            VerifiedCopies(w.disk) == MaterializationIds(w.catalog))
  {
    hide VerifiedBlobs, VerifiedEntries, VerifiedCopies;
    var c := w.catalog;
    assert (set b | b in c.blobs :: b.id) == BlobIds(c) && (set e | e in c.entries :: e.id) == EntryIds(c)
      && (set m | m in c.materializations :: m.id) == MaterializationIds(c);
    EmptyBoth(VerifiedBlobs(w.disk), BlobIds(c));
    EmptyBoth(VerifiedEntries(w.disk), EntryIds(c));
    EmptyBoth(VerifiedCopies(w.disk), MaterializationIds(c));
  }

  lemma EmptyBoth(a: set<string>, b: set<string>)
    ensures (a - b) + (b - a) == {} <==> a == b
  {
    if (a - b) + (b - a) == {} {
      forall x ensures x in a <==> x in b {
        assert x !in (a - b) + (b - a);
      }
    }
  }

  /** Once nothing is being evicted, no cataloged blob or entry is missing. */
  lemma SettledNothingMissing(w: World, sizes: Sizes)
    requires Consistent(w, sizes) && Settled(w.catalog)
    ensures ReportOf(w).missingBlobs == {} && ReportOf(w).missingEntries == {}
  {
    ConsistentMeansReadable(w, sizes);
    forall e | e in w.catalog.entries ensures e.id in VerifiedEntries(w.disk) {
      assert !Doomed(w.catalog, e);
    }
  }

  lemma EmptyPlanFits(c: Snapshot, limits: Limits, mgr: Option<LeaseManager>, plan: EvictionPlan, picks: seq<Candidate>)
    requires Countable(c) && Reports(plan, c, mgr, limits, picks) && plan.satisfied && plan.targets == []
    ensures Fits(c, limits)
  {
    AfterIsRemoval(c, mgr, picks);
  }

  lemma LinkedNow(d: Disk, c: Snapshot, sizes: Sizes)
    requires Consistent(World(d, c), sizes)
    ensures WellLinked(c)
  {
  }

  /** The three records are cataloged and the copy is on disk as it should be. */
  ghost predicate HandedOver(w: World, m: Materialization, reference: Reference, lease: Lease) {
    && m in w.catalog.materializations && reference in w.catalog.references && lease in w.catalog.leases
    && ExactCopy(w.disk, m)
  }

  /** Another directory is in the copy's place, its source does not verify, or the
      catalog has something against it. */
  ghost predicate HandoffRefused(w: World, m: Materialization, reference: Reference, lease: Lease) {
    || !(ExactCopy(w.disk, m) || (DirectoryAt(w.disk.materializations, m.id).Absent? && SourceVerified(w.disk, m)))
    || HandoffConflicts(w.catalog, m, reference, lease)
  }

  ghost predicate CopySeen(worlds: seq<World>, n: nat, m: Materialization) {
    exists i | n <= i < |worlds| :: ExactCopy(worlds[i].disk, m)
  }

  function ContentFile(m: Materialization): File { File(0, true, Content(m.currentBlobId, m.size)) }

  function CopyFiles(m: Materialization): Directory {
    var manifest := MaterializationManifest(m.id, m.entryId, m.baselineBlobId, m.currentBlobId, m.size);
    Present(true, map[CONTENT := ContentFile(m), MANIFEST := File(0, true, manifest)])
  }

  lemma WrittenCopy(was: Disk, d: Disk, m: Materialization)
    requires SourceVerified(was, m) && d.blobs == was.blobs && d.entries == was.entries
    requires DirectoryAt(d.materializations, m.id) == CopyFiles(m)
    ensures ExactCopy(d, m)
  {
    ContentBeforeManifest();
  }

  lemma FrozenUntilCataloged(c: Snapshot, r: Snapshot, m: Materialization, reference: Reference, lease: Lease)
    requires Rely(c, r) && CacheCatalog.PrepareHandoff(r, m, reference, lease).Some?
    ensures Frozen(c, m.id)
  {
    assert Frozen(r, m.id);
    hide CacheCatalog.PrepareHandoff, Rely, Frozen;
    RelyFrozen(c, r);
  }

  lemma HandoffVisible(c: Snapshot, m: Materialization, reference: Reference, lease: Lease)
    requires CacheCatalog.PrepareHandoff(c, m, reference, lease).Some?
    ensures var r := CacheCatalog.PrepareHandoff(c, m, reference, lease).value;
      m in r.materializations && reference in r.references && lease in r.leases
  {
    var r := CacheCatalog.PrepareHandoff(c, m, reference, lease).value;
    assert r.references[|c.references|] == reference && r.leases[|c.leases|] == lease;
  }

  lemma HandedOutStays(c: Snapshot, r: Snapshot, m: Materialization)
    requires Rely(c, r) && m in c.materializations
    ensures exists n | n in r.materializations :: n.id == m.id && n.entryId == m.entryId && n.pinned == m.pinned
  {
    var n := MildMaterialization(c, r, m);
  }

  /** A materialized entry is never doomed, so its manifest is on disk. */
  lemma MaterializedBacked(d: Disk, c: Snapshot, id: string, entryId: string, sizes: Sizes)
    requires Consistent(World(d, c), sizes) && exists m | m in c.materializations :: m.id == id && m.entryId == entryId
    ensures HasManifest(d, entryId)
  {
    var m :| m in c.materializations && m.id == id && m.entryId == entryId;
    assert SourceMatches(c, m);
    var e :| e in c.entries && e.id == m.entryId && e.blobId == m.baselineBlobId;
    assert EntryBacked(d, c, e);
    if DeletingBlob(c, e.blobId) { DeletingUnheld(c, e.blobId, sizes); }
    forall x | x in c.references ensures x.owner != EvictionClaim(e.id) {
      assert x.owner.EvictionClaim? ==> ClaimStands(c, x);
    }
  }

  /** The source entry's manifest is intact and names the blob to be copied. */
  predicate SourceVerified(d: Disk, m: Materialization) {
    && 0 <= m.size && m.currentBlobId == m.baselineBlobId
    && EntryVerified(m.entryId, DirectoryAt(d.entries, m.entryId), d.blobs)
    && var source := DirectoryAt(d.entries, m.entryId).children[MANIFEST].data;
       source.blobId == m.baselineBlobId && source.blobSize == m.size
  }

  lemma BlobsTidy(d: Disk, c: Snapshot, sizes: Sizes)
    requires Consistent(World(d, c), sizes)
    ensures forall id | id in d.blobs :: d.blobs[id] == (id, sizes(id))
  {
  }

  lemma ManifestsTidy(d: Disk, c: Snapshot, id: string, sizes: Sizes)
    requires Consistent(World(d, c), sizes)
    ensures HasManifest(d, id) ==> ManifestOf(d.entries[id].children[MANIFEST], id, sizes)
  {
    assert HasManifest(d, id) ==> TidyEntry(d.entries[id], id, sizes);
  }

  lemma ManifestWritten(d: Disk, e: Disk, id: string, blobId: string, size: Int64)
    requires e.entries == WithEntry(d, id, Present(true, map[MANIFEST := EntryFile(id, blobId, size)])).entries
    ensures HasManifest(e, id) && Names(e.entries[id].children[MANIFEST], blobId)
  {
  }

  lemma RelyEntry(c: Snapshot, r: Snapshot, id: string, blobId: string)
    requires Rely(c, r) && forall e | e in c.entries && e.id == id :: e.blobId == blobId
    ensures forall e | e in r.entries && e.id == id :: e.blobId == blobId
  {
    forall f | f in r.entries && f.id == id ensures f.blobId == blobId { var e := MildEntryBack(c, r, f); }
  }

  /** A blob that was not on disk when its bytes were stored is still loose after
      the admission gave up. */
  lemma LooseAfter(d0: Disk, c0: Snapshot, d: Disk, c: Snapshot, e: Disk, r: Snapshot, id: string, sizes: Sizes)
    requires Consistent(World(d0, c0), sizes) && id !in d0.blobs
    requires Rely(c0, c) && d.entries == d0.entries && Narrows(World(d, c), World(e, r))
    ensures Loose(e, r, id)
  {
    EmptierRefl(d);
    NarrowsRely(d, d, c0, c);
    NarrowsTrans(World(d, c0), World(d, c), World(e, r));
    hide Rely, PublishedBlob;
    assert !PublishedBlob(c0, id) by { UnstoredNotPublished(d0, c0, id, sizes); }
    forall x | x in r.entries && x.blobId == id ensures !HasManifest(e, x.id) {
      assert HasEntry(c0, x.id, id);
      var y :| y in c0.entries && y.id == x.id && y.blobId == id;
      assert EntryBacked(d0, c0, y);
    }
  }

  lemma UnstoredNotPublished(d: Disk, c: Snapshot, id: string, sizes: Sizes)
    requires Consistent(World(d, c), sizes) && id !in d.blobs
    ensures !PublishedBlob(c, id)
  {
  }

  lemma AdmittedEntry(d: Disk, c: Snapshot, a: Admission, limits: Limits, sizes: Sizes)
    requires AdmissionHolds(c, a, limits) && a.entry.Some? && Consistent(World(d, c), sizes)
    ensures forall e | e in c.entries && e.id == a.entry.value.id :: e.blobId == a.entry.value.blobId
  {
    forall e | e in c.entries && e.id == a.entry.value.id ensures e.blobId == a.entry.value.blobId {
      assert EntryKey(e) in EntryIds(c);
      var x :| x in c.entries && x.id == e.id && SameSourceIdentity(x, a.entry.value);
      CacheTransactions.EntryUnique(c, e, x);
    }
  }

  /** The two records are cataloged as given, and the bytes and the manifest that
      names them are on disk. */
  ghost predicate PublishedAs(w: World, blob: Blob, entry: Entry) {
    && (exists x | x in w.catalog.blobs :: x.id == blob.id && IsBlob(x, blob))
    && (exists x | x in w.catalog.entries :: x.id == entry.id && IsEntry(x, entry))
    && blob.id in w.disk.blobs && w.disk.blobs[blob.id] == (blob.id, blob.size)
    && HasManifest(w.disk, entry.id) && Names(w.disk.entries[entry.id].children[MANIFEST], blob.id)
  }

  /** The blob is not stored, another manifest is in its entry's place, or the catalog
      has a conflicting row. */
  ghost predicate PublishRefused(w: World, blob: Blob, entry: Entry) {
    || blob.id !in w.disk.blobs
    || (HasManifest(w.disk, entry.id) && !Names(w.disk.entries[entry.id].children[MANIFEST], blob.id))
    || PublishConflicts(w.catalog, blob, entry)
  }

  lemma ManifestRefuses(w: World, blob: Blob, entry: Entry)
    requires blob.id !in w.disk.blobs
      || (HasManifest(w.disk, entry.id) && !Names(w.disk.entries[entry.id].children[MANIFEST], blob.id))
    ensures PublishRefused(w, blob, entry)
  {
  }

  lemma PublishSeen(d: Disk, c: Snapshot, blob: Blob, entry: Entry, sizes: Sizes)
    requires Consistent(World(d, c), sizes) && Publish(c, blob, entry).Some? && blob.size == sizes(blob.id)
    requires blob.id in d.blobs && HasManifest(d, entry.id)
    requires Names(d.entries[entry.id].children[MANIFEST], blob.id)
    ensures PublishedAs(World(d, Publish(c, blob, entry).value), blob, entry)
  {
    BlobsTidy(d, c, sizes);
    PublishChanges(c, blob, entry);
    hide Consistent, Publish, HasManifest, Names, IsBlob, IsEntry;
    var r := Publish(c, blob, entry).value;
    assert blob.id in BlobIds(r) && entry.id in EntryIds(r);
    var b :| b in r.blobs && BlobKey(b) == blob.id;
    var e :| e in r.entries && EntryKey(e) == entry.id;
    assert IsBlob(b, blob) && IsEntry(e, entry);
  }

  lemma PublishVisible(c: Snapshot, blob: Blob, entry: Entry)
    requires Publish(c, blob, entry).Some?
    ensures PublishedBlob(Publish(c, blob, entry).value, blob.id)
    ensures HasEntry(Publish(c, blob, entry).value, entry.id, blob.id)
  {
    var r := Publish(c, blob, entry).value;
    var b := BlobRow(c.blobs, blob.id);
    var e := EntryRow(c.entries, entry.id);
    if b.Some? {
      var i :| 0 <= i < |c.blobs| && c.blobs[i] == b.value;
      assert r.blobs[i] in r.blobs;
    } else {
      assert r.blobs[|c.blobs|] == blob;
    }
    if e.Some? {
      var i :| 0 <= i < |c.entries| && c.entries[i] == e.value;
      assert r.entries[i] in r.entries;
    } else {
      assert r.entries[|c.entries|] == entry;
    }
  }

  lemma VisibleStays(c: Snapshot, r: Snapshot, id: string, blobId: string)
    requires Rely(c, r) && PublishedBlob(c, blobId) && HasEntry(c, id, blobId)
    ensures PublishedBlob(r, blobId) && HasEntry(r, id, blobId)
  {
    MildTables(c, r);
    var e :| e in c.entries && e.id == id && e.blobId == blobId;
    var f := MildEntry(c, r, e);
  }

  lemma DiskRelyManifest(d: Disk, e: Disk, c: Snapshot, id: string)
    requires DiskRely(d, e, c)
    ensures e.blobs == d.blobs && e.entries == d.entries && (HasManifest(e, id) == HasManifest(d, id))
  {
  }

  lemma DiskRelyCopy(d: Disk, e: Disk, c: Snapshot, id: string)
    requires DiskRely(d, e, c) && BeingDeleted(c, id)
    ensures e.blobs == d.blobs && e.entries == d.entries
    ensures DirectoryAt(e.materializations, id) == DirectoryAt(d.materializations, id)
  {
  }

  const ADMISSION_MAX_BATCHES: nat := 4
  const MAX_RECORDS := 1_000_000

  /** The target has been evicted, or the catalog of some world refuses it. */
  ghost predicate Handled(t: EvictionTarget, evicted: seq<Claim>, worlds: seq<World>, n: nat) {
    || (exists k | k in evicted :: TargetOf(k) == t)
    || (exists i | n <= i < |worlds| :: !Claimable(worlds[i].catalog, t))
  }

  ghost predicate AllHandled(targets: seq<EvictionTarget>, m: nat, evicted: seq<Claim>, worlds: seq<World>, n: nat)
    requires m <= |targets|
  {
    forall j | 0 <= j < m :: Handled(targets[j], evicted, worlds, n)
  }

  /** One target more: evicted, or refused by the catalog of the last world so far. */
  lemma HandledMore(targets: seq<EvictionTarget>, m: nat, evicted: seq<Claim>, more: seq<Claim>, worlds: seq<World>,
                    longer: seq<World>, n: nat)
    requires m < |targets| && AllHandled(targets, m, evicted, worlds, n) && evicted <= more && worlds <= longer
    requires n < |worlds|
    requires (|more| > 0 && TargetOf(more[|more| - 1]) == targets[m])
      || !Claimable(worlds[|worlds| - 1].catalog, targets[m])
    ensures AllHandled(targets, m + 1, more, longer, n)
  {
    hide Claimable;
    forall j | 0 <= j < m + 1 ensures Handled(targets[j], more, longer, n) {
      if j < m {
        assert Handled(targets[j], evicted, worlds, n);
        if k :| k in evicted && TargetOf(k) == targets[j] {
          assert k in more;
        } else {
          var i :| n <= i < |worlds| && !Claimable(worlds[i].catalog, targets[j]);
          assert longer[i] == worlds[i];
        }
      } else if |more| > 0 && TargetOf(more[|more| - 1]) == targets[m] {
        assert more[|more| - 1] in more;
      } else {
        assert longer[|worlds| - 1] == worlds[|worlds| - 1];
      }
    }
  }

  /** Why making room came to an end. Positions are those of worlds visited. */
  datatype Stop =
    | Enough
    | BadLimit
    | RecoveryFailed(world: nat, claim: Claim)
    | NothingToTake(mgr: Option<LeaseManager>)
    | EvictionFailed(world: nat, mgr: Option<LeaseManager>, targets: seq<EvictionTarget>)
    | AllRefused(world: nat, mgr: Option<LeaseManager>, targets: seq<EvictionTarget>)
    | OutOfBatches

  /** The catalog can be loaded and planned on. */
  ghost predicate Enforceable(c: Snapshot, limits: Limits, mgr: Option<LeaseManager>) {
    && |c.blobs| + |c.entries| + |c.materializations| + |c.references| + |c.leases| <= MAX_RECORDS
    && ValidSnapshot(c) && ValidLimits(limits) && (c.leases == [] || mgr.Some?) && GlobalBytes(c) <= MAX_INT64
  }

  /** The limits hold, for the catalog alone or with an admission. */
  ghost predicate Met(c: Snapshot, what: Option<Admission>, limits: Limits) {
    if what.None? then Fits(c, limits) else AdmissionHolds(c, what.value, limits)
  }

  /** Some greedy plan for that lists exactly these targets. */
  ghost predicate PlanTakes(c: Snapshot, what: Option<Admission>, limits: Limits, mgr: Option<LeaseManager>,
                            targets: seq<EvictionTarget>)
  {
    if what.None? then
      Countable(c) && exists plan, picks :: Reports(plan, c, mgr, limits, picks) && plan.targets == targets
    else
      var n := Incoming(c, what.value);
      && WellShaped(n) && Countable(Planned(c, n))
      && exists plan, picks :: Reports(plan, Planned(c, n), mgr, limits, picks) && plan.targets == targets
  }

  /** Planning is refused, or a plan finds nothing to take although the limits do not
      hold. */
  ghost predicate NoRoom(c: Snapshot, what: Option<Admission>, limits: Limits, mgr: Option<LeaseManager>) {
    || (if what.None? then !Enforceable(c, limits, mgr) else !Decidable(c, what.value, limits, mgr))
    || (!Met(c, what, limits) && PlanTakes(c, what, limits, mgr, []))
  }

  /** The reason is what the worlds show. */
  ghost predicate Explains(stop: Stop, what: Option<Admission>, limits: Limits, worlds: seq<World>, n: nat,
                           was: Snapshot, batches: nat)
    requires worlds != []
  {
    var c := worlds[|worlds| - 1].catalog;
    match stop
    case Enough => Met(c, what, limits)
    case BadLimit => !(0 < limits.maxCandidates <= MAX_PENDING)
    case RecoveryFailed(i, k) =>
      && n <= i < |worlds| && Pending(worlds[i].catalog, k)
      && (k.MaterializationClaim? || ClaimedPinned(worlds[i].catalog, k))
    case NothingToTake(mgr) => NoRoom(c, what, limits, mgr)
    case EvictionFailed(i, mgr, targets) =>
      && n <= i < |worlds| && PlanTakes(worlds[i].catalog, what, limits, mgr, targets)
      && exists t | t in targets :: t.MaterializationEviction?
    case AllRefused(i, mgr, targets) =>
      && n <= i < |worlds| && targets != [] && PlanTakes(worlds[i].catalog, what, limits, mgr, targets)
      && AllHandled(targets, |targets|, [], worlds, n)
    case OutOfBatches => Rows(c) + batches <= Rows(was)
  }

  /** A reason for the quota that does not count batches. */
  ghost predicate Stands(stop: Stop, limits: Limits, worlds: seq<World>, n: int) {
    worlds != [] && 0 <= n && stop != OutOfBatches
      && Explains(stop, None, limits, worlds, n, worlds[|worlds| - 1].catalog, 0)
  }

  lemma StandsLonger(stop: Stop, limits: Limits, worlds: seq<World>, n: nat, m: nat)
    requires Stands(stop, limits, worlds, n) && m <= n
    ensures Stands(stop, limits, worlds, m)
  {
    hide NoRoom, PlanTakes, Pending, ClaimedPinned, Met;
    if stop.AllRefused? { HandledLater(stop.targets, worlds, n, m); }
    hide AllHandled;
  }

  lemma StandsExplains(stop: Stop, limits: Limits, worlds: seq<World>, n: nat, was: Snapshot, batches: nat)
    requires Stands(stop, limits, worlds, n)
    ensures Explains(stop, None, limits, worlds, n, was, batches)
  {
    hide NoRoom, PlanTakes, Pending, ClaimedPinned, Met, AllHandled;
  }

  lemma QuotaEnds(stop: Stop, limits: Limits, worlds: seq<World>, n: nat, was: Snapshot, batches: nat)
    requires worlds != []
    requires stop == Enough ==> Met(worlds[|worlds| - 1].catalog, None, limits)
    requires stop == OutOfBatches ==> Rows(worlds[|worlds| - 1].catalog) + batches <= Rows(was)
    requires stop == Enough || stop == OutOfBatches || Stands(stop, limits, worlds, n)
    ensures Explains(stop, None, limits, worlds, n, was, batches)
  {
    hide NoRoom, PlanTakes, Pending, ClaimedPinned, Met, AllHandled, Rows;
  }

  /** The reason, if it is about a plan, is about one made with this lease manager. */
  predicate OfManager(stop: Stop, mgr: Option<LeaseManager>) {
    stop.NothingToTake? || stop.EvictionFailed? || stop.AllRefused? ==> stop.mgr == mgr
  }

  /** The lease manager of a reason is that of one of the batches. */
  ghost predicate FromBatch(stop: Stop, managers: nat -> Option<LeaseManager>, batches: nat) {
    exists b: nat :: b <= batches && OfManager(stop, managers(b))
  }

  /** From one world to another, over more worlds: nothing but eviction, which has
      removed so many rows. */
  ghost predicate Went(w0: World, v0: seq<World>, w: World, v: seq<World>, rows: nat) {
    v0 <= v && Narrows(w0, w) && Rows(w.catalog) + rows <= Rows(w0.catalog)
  }

  /** One batch of an admission, from `w` to `x`. It settles the matter, or removes
      rows; at once if everything is ready. */
  ghost predicate BatchRun(a: Admission, limits: Limits, mgr: Option<LeaseManager>, done: Option<bool>, stop: Stop,
                           calm: bool, w: World, v: seq<World>, x: World, u: seq<World>)
  {
    && v != [] && u != [] && u[|u| - 1] == x
    && Went(w, v, x, u, if done.None? then 1 else 0)
    && (done == Some(true) ==> AdmissionHolds(x.catalog, a, limits))
    && (calm && done != Some(false) ==> Settled(x.catalog))
    && (Ready(w.catalog, a, limits, mgr) ==> done == Some(true) && x == w)
    && (done.Some? ==> Concluded(done.value, stop, a, limits, u, |v| - 1, w.catalog, 1) && stop != OutOfBatches)
  }

  /** The same of the first so many batches, from `w0` to `w`. */
  ghost predicate BatchesRun(a: Admission, limits: Limits, mgr: Option<LeaseManager>, done: Option<bool>, stop: Stop,
                             batches: nat, calm: bool, w0: World, v0: seq<World>, w: World, v: seq<World>)
  {
    && v0 != [] && v != [] && v[|v| - 1] == w && (batches == 0 ==> w == w0 && v == v0 && done.None?)
    && Went(w0, v0, w, v, if done.None? then batches else 0)
    && (done == Some(true) ==> AdmissionHolds(w.catalog, a, limits))
    && (0 < batches && calm && done != Some(false) ==> Settled(w.catalog))
    && (0 < batches && Ready(w0.catalog, a, limits, mgr) ==> done == Some(true) && w == w0)
    && (done.Some? ==> Concluded(done.value, stop, a, limits, v, |v0| - 1, w0.catalog, ADMISSION_MAX_BATCHES))
  }

  lemma NoBatchYet(a: Admission, limits: Limits, mgr: Option<LeaseManager>, stop: Stop, calm: bool,
                   w: World, v: seq<World>)
    requires v != [] && v[|v| - 1] == w
    ensures BatchesRun(a, limits, mgr, None, stop, 0, calm, w, v, w, v)
  {
    NarrowsRefl(w);
    hide Narrows, Rows, AdmissionHolds, Settled, Ready, Concluded;
  }

  lemma NextBatch(a: Admission, limits: Limits, first: Option<LeaseManager>, mgr: Option<LeaseManager>, before: Stop,
                  done: Option<bool>, stop: Stop, batch: nat, calm: bool, w0: World, v0: seq<World>, w: World,
                  v: seq<World>, x: World, u: seq<World>)
    requires BatchesRun(a, limits, first, None, before, batch, calm, w0, v0, w, v) && (batch == 0 ==> mgr == first)
    requires BatchRun(a, limits, mgr, done, stop, calm, w, v, x, u)
    ensures BatchesRun(a, limits, first, done, stop, batch + 1, calm, w0, v0, x, u)
    ensures done.Some? ==>
      BatchesRun(a, limits, first, done, stop, ADMISSION_MAX_BATCHES, calm, w0, v0, x, u)
  {
    hide Narrows, Rows, AdmissionHolds, Settled, Ready, Concluded;
    NarrowsTrans(w0, w, x);
    if done.Some? {
      ConcludedMore(done.value, stop, a, limits, u, |v| - 1, w.catalog, 1, |v0| - 1, w0.catalog, ADMISSION_MAX_BATCHES);
    }
  }

  lemma BatchesMean(a: Admission, limits: Limits, mgr: Option<LeaseManager>, done: Option<bool>, stop: Stop, calm: bool,
                    w0: World, v0: seq<World>, w: World, v: seq<World>)
    requires BatchesRun(a, limits, mgr, done, stop, ADMISSION_MAX_BATCHES, calm, w0, v0, w, v)
    ensures v0 <= v && v0 != [] && Narrows(w0, w)
    ensures done == Some(true) ==> AdmissionHolds(w.catalog, a, limits)
    ensures calm && done != Some(false) ==> Settled(w.catalog)
    ensures Ready(w0.catalog, a, limits, mgr) ==> done == Some(true) && w == w0
    ensures done.None? ==> Rows(w.catalog) + ADMISSION_MAX_BATCHES <= Rows(w0.catalog)
    ensures done.Some? ==> Concluded(done.value, stop, a, limits, v, |v0| - 1, w0.catalog, ADMISSION_MAX_BATCHES)
  {
    hide Narrows, Rows, AdmissionHolds, Settled, Ready, Concluded;
  }

  lemma EndOfManager(stop: Stop, mgr: Option<LeaseManager>)
    requires stop == Enough || stop == OutOfBatches
    ensures OfManager(stop, mgr)
  {
  }

  lemma OneBatch(stop: Stop, managers: nat -> Option<LeaseManager>, batch: nat, batches: nat)
    requires OfManager(stop, managers(batch)) && batch <= batches
    ensures FromBatch(stop, managers, batches)
  {
  }

  /** An admission succeeds exactly if there is enough room, and its reason holds. */
  ghost predicate Concluded(ok: bool, stop: Stop, a: Admission, limits: Limits, worlds: seq<World>, n: int,
                            was: Snapshot, batches: nat)
  {
    worlds != [] && 0 <= n && (ok <==> stop == Enough) && Explains(stop, Some(a), limits, worlds, n, was, batches)
  }

  /** A reason stays one for a longer run and more batches. */
  lemma ConcludedMore(ok: bool, stop: Stop, a: Admission, limits: Limits, worlds: seq<World>, n: nat, was: Snapshot,
                      batches: nat, m: nat, first: Snapshot, more: nat)
    requires Concluded(ok, stop, a, limits, worlds, n, was, batches) && stop != OutOfBatches && m <= n
    ensures Concluded(ok, stop, a, limits, worlds, m, first, more)
  {
    hide NoRoom, PlanTakes, Pending, ClaimedPinned, Met;
    if stop.AllRefused? { HandledLater(stop.targets, worlds, n, m); }
    hide AllHandled;
  }

  lemma AtTheEnd(ok: bool, a: Admission, limits: Limits, worlds: seq<World>, n: nat, was: Snapshot, batches: nat)
    requires worlds != []
    requires var c := worlds[|worlds| - 1].catalog;
      if ok then AdmissionHolds(c, a, limits) else Rows(c) + batches <= Rows(was)
    ensures Concluded(ok, if ok then Enough else OutOfBatches, a, limits, worlds, n, was, batches)
  {
    hide AdmissionHolds, Rows;
  }

  lemma HandledLater(targets: seq<EvictionTarget>, worlds: seq<World>, m: nat, n: nat)
    requires AllHandled(targets, |targets|, [], worlds, m) && n <= m
    ensures AllHandled(targets, |targets|, [], worlds, n)
  {
    hide Claimable;
    forall j | 0 <= j < |targets| ensures Handled(targets[j], [], worlds, n) {
      assert Handled(targets[j], [], worlds, m);
      var i :| m <= i < |worlds| && !Claimable(worlds[i].catalog, targets[j]);
    }
  }

  lemma QuotaExact(c: Snapshot, limits: Limits, mgr: Option<LeaseManager>, plan: EvictionPlan, picks: seq<Candidate>)
    requires Countable(c) && Reports(plan, c, mgr, limits, picks)
    ensures plan.satisfied && plan.targets == [] <==> Fits(c, limits)
    ensures PlanTakes(c, None, limits, mgr, plan.targets)
  {
    if plan.satisfied && plan.targets == [] { EmptyPlanFits(c, limits, mgr, plan, picks); }
    if Fits(c, limits) { FittingPicksNothing(c, mgr, limits, picks); }
    hide Fits;
  }

  datatype Decision = Accepted | Refused | MakeRoom(targets: seq<EvictionTarget>)

  predicate Nothing(a: Admission) { a.blob.None? && a.entry.None? && a.materialization.None? }

  predicate SameSourceIdentity(e: Entry, f: Entry) {
    e.endpointId == f.endpointId && e.path == f.path && e.fingerprint.canonical == f.fingerprint.canonical
      && e.blobId == f.blobId && e.workspaceId == f.workspaceId
  }

  /** Drops the incoming records that are cataloged already, refusing conflicts. */
  function NormalizeAdmission(c: Snapshot, a: Admission): Option<Admission> {
    var b := if a.blob.Some? then BlobRow(c.blobs, a.blob.value.id) else None;
    var e := if a.entry.Some? then EntryRow(c.entries, a.entry.value.id) else None;
    if b.Some? && (b.value.size != a.blob.value.size || b.value.state != BlobPublished) then None
    else if e.Some? && !SameSourceIdentity(e.value, a.entry.value) then None
    else Some(a.(blob := if b.Some? then None else a.blob, entry := if e.Some? then None else a.entry))
  }

  ghost predicate BlobCataloged(c: Snapshot, b: Blob) {
    exists x | x in c.blobs :: x.id == b.id && x.size == b.size && x.state == BlobPublished
  }

  ghost predicate EntryCataloged(c: Snapshot, e: Entry) {
    exists x | x in c.entries :: x.id == e.id && SameSourceIdentity(x, e)
  }

  /** The catalog with the incoming records whose identifiers are new. */
  ghost function WithIncoming(c: Snapshot, a: Admission): Snapshot {
    c.(blobs := c.blobs + (if a.blob.Some? && a.blob.value.id !in BlobIds(c) then [a.blob.value] else []),
       entries := c.entries + (if a.entry.Some? && a.entry.value.id !in EntryIds(c) then [a.entry.value] else []),
       materializations := c.materializations + (if a.materialization.Some? then [a.materialization.value] else []))
  }

  /** Incoming records that are cataloged already agree with the catalog, and the
      others, if any, fit every limit with it as it is. */
  ghost predicate AdmissionHolds(c: Snapshot, a: Admission, limits: Limits) {
    && (a.blob.Some? && a.blob.value.id in BlobIds(c) ==> BlobCataloged(c, a.blob.value))
    && (a.entry.Some? && a.entry.value.id in EntryIds(c) ==> EntryCataloged(c, a.entry.value))
    && (WithIncoming(c, a) == c || Fits(WithIncoming(c, a), limits))
  }

  /** What is left of an admission once the records cataloged already are dropped. */
  ghost function Incoming(c: Snapshot, a: Admission): Admission {
    Admission(if a.blob.Some? && a.blob.value.id in BlobIds(c) then None else a.blob,
              if a.entry.Some? && a.entry.value.id in EntryIds(c) then None else a.entry, a.materialization)
  }

  /** The catalog with the incoming records can be planned on. */
  ghost predicate Plannable(c: Snapshot, n: Admission, limits: Limits, mgr: Option<LeaseManager>) {
    && WellShaped(n) && ValidSnapshot(Planned(c, n)) && ValidLimits(limits) && (c.leases == [] || mgr.Some?)
    && GlobalBytes(Planned(c, n)) <= MAX_INT64
  }

  /** The catalog can be loaded, no record conflicts with it, and it can be planned on
      with the incoming ones if there are any. */
  ghost predicate Decidable(c: Snapshot, a: Admission, limits: Limits, mgr: Option<LeaseManager>) {
    && |c.blobs| + |c.entries| + |c.materializations| + |c.references| + |c.leases| <= MAX_RECORDS
    && ValidSnapshot(c)
    && (a.blob.Some? && a.blob.value.id in BlobIds(c) ==> BlobCataloged(c, a.blob.value))
    && (a.entry.Some? && a.entry.value.id in EntryIds(c) ==> EntryCataloged(c, a.entry.value))
    && (Nothing(Incoming(c, a)) || Plannable(c, Incoming(c, a), limits, mgr))
  }

  /** When an admission is accepted as the catalog is. */
  ghost predicate Admissible(c: Snapshot, a: Admission, limits: Limits, mgr: Option<LeaseManager>) {
    && |c.blobs| + |c.entries| + |c.materializations| + |c.references| + |c.leases| <= MAX_RECORDS
    && ValidSnapshot(c) && AdmissionHolds(c, a, limits)
    && (Nothing(Incoming(c, a)) || Plannable(c, Incoming(c, a), limits, mgr))
  }

  lemma AdmissibleHolds(c: Snapshot, a: Admission, limits: Limits, mgr: Option<LeaseManager>)
    requires Admissible(c, a, limits, mgr)
    ensures AdmissionHolds(c, a, limits)
  {
  }

  lemma PlannableMeans(c: Snapshot, n: Admission, limits: Limits, mgr: Option<LeaseManager>)
    ensures Plannable(c, n, limits, mgr) <==>
      WellShaped(n) && ValidSnapshot(Planned(c, n)) && ValidLimits(limits) && (c.leases == [] || mgr.Some?)
        && GlobalBytes(Planned(c, n)) <= MAX_INT64
  {
  }

  lemma NormalizedIsIncoming(c: Snapshot, a: Admission)
    requires WellLinked(c)
    ensures NormalizeAdmission(c, a).Some? ==> NormalizeAdmission(c, a).value == Incoming(c, a)
  {
    NormalizeExact(c, a);
    hide NormalizeAdmission;
  }

  lemma ConflictRefuses(c: Snapshot, a: Admission, limits: Limits)
    requires WellLinked(c) && NormalizeAdmission(c, a).None?
    ensures !AdmissionHolds(c, a, limits)
  {
    NormalizeExact(c, a);
    hide NormalizeAdmission, BlobIds, EntryIds, Fits, BlobCataloged, EntryCataloged;
  }

  /** A plan accepts exactly when the incoming records fit as the catalog is. */
  lemma AdmissionExact(c: Snapshot, a: Admission, n: Admission, limits: Limits, mgr: Option<LeaseManager>,
                       plan: EvictionPlan, picks: seq<Candidate>)
    requires WellLinked(c) && NormalizeAdmission(c, a) == Some(n) && n == Incoming(c, a) && !Nothing(n) && WellShaped(n)
    requires Countable(Planned(c, n)) && Reports(plan, Planned(c, n), mgr, limits, picks)
    ensures plan.satisfied && plan.targets == [] <==> AdmissionHolds(c, a, limits)
    ensures PlanTakes(c, Some(a), limits, mgr, plan.targets)
  {
    hide NormalizeAdmission, Incoming;
    if plan.satisfied && plan.targets == [] {
      hide Reports, Fits, Planned, Admitted;
      AdmissionFits(c, n, limits, mgr, plan, picks);
      NewRecordsFit(c, a, limits);
    }
    if AdmissionHolds(c, a, limits) {
      IncomingFits(c, a, n, limits);
      PlannedIsAdmittedButPins(c, n);
      FitsIgnoresPins(Planned(c, n), Admitted(c, n), limits);
      FittingPicksNothing(Planned(c, n), mgr, limits, picks);
      hide Fits, Planned, Admitted, Countable;
    }
  }

  lemma IncomingFits(c: Snapshot, a: Admission, n: Admission, limits: Limits)
    requires WellLinked(c) && NormalizeAdmission(c, a) == Some(n) && !Nothing(n) && WellShaped(n)
    requires AdmissionHolds(c, a, limits)
    ensures Fits(Admitted(c, n), limits)
  {
    NormalizeExact(c, a);
    hide NormalizeAdmission, BlobIds, EntryIds, Fits;
    var r := WithIncoming(c, a);
    assert r == Admitted(c, n);
    assert |r.blobs| + |r.entries| + |r.materializations| > |c.blobs| + |c.entries| + |c.materializations|;
  }

  /** Nothing is pending and the admission is admissible at once. */
  ghost predicate Ready(c: Snapshot, a: Admission, limits: Limits, mgr: Option<LeaseManager>) {
    Settled(c) && 0 < limits.maxCandidates <= MAX_PENDING && Admissible(c, a, limits, mgr)
  }

  lemma NothingListed(c: Snapshot, a: Admission, limits: Limits, mgr: Option<LeaseManager>, listed: seq<Claim>)
    requires Ready(c, a, limits, mgr) && forall k | k in listed :: Pending(c, k)
    ensures listed == [] && 0 < limits.maxCandidates <= MAX_PENDING && Admissible(c, a, limits, mgr)
  {
    hide Pending, Settled, Admissible;
    if listed != [] { SettledNotPending(c, listed[0]); }
  }

  lemma SettledNotPending(c: Snapshot, k: Claim)
    requires Settled(c)
    ensures !Pending(c, k)
  {
  }

  /** Normalizing refuses exactly the conflicts, and drops exactly the records that
      are cataloged already. */
  lemma NormalizeExact(c: Snapshot, a: Admission)
    requires WellLinked(c)
    ensures NormalizeAdmission(c, a).Some? <==>
      && (a.blob.Some? && a.blob.value.id in BlobIds(c) ==> BlobCataloged(c, a.blob.value))
      && (a.entry.Some? && a.entry.value.id in EntryIds(c) ==> EntryCataloged(c, a.entry.value))
    ensures NormalizeAdmission(c, a).Some? ==>
      var n := NormalizeAdmission(c, a).value;
      && n.materialization == a.materialization
      && n.blob == (if a.blob.Some? && a.blob.value.id in BlobIds(c) then None else a.blob)
      && n.entry == (if a.entry.Some? && a.entry.value.id in EntryIds(c) then None else a.entry)
  {
    if a.blob.Some? { BlobLookup(c, a.blob.value); }
    if a.entry.Some? { EntryLookup(c, a.entry.value); }
    hide BlobRow, EntryRow, BlobIds, EntryIds, WellLinked, BlobCataloged, EntryCataloged;
  }

  lemma BlobLookup(c: Snapshot, b: Blob)
    requires WellLinked(c)
    ensures BlobRow(c.blobs, b.id).Some? <==> b.id in BlobIds(c)
    ensures BlobRow(c.blobs, b.id).Some? ==>
      (BlobCataloged(c, b) <==>
        BlobRow(c.blobs, b.id).value.size == b.size && BlobRow(c.blobs, b.id).value.state == BlobPublished)
  {
    var row := BlobRow(c.blobs, b.id);
    if row.Some? {
      assert BlobKey(row.value) in BlobIds(c);
      forall x | x in c.blobs && x.id == b.id ensures x == row.value { RowUnique(c, x, row.value); }
    }
  }

  lemma EntryLookup(c: Snapshot, e: Entry)
    requires WellLinked(c)
    ensures EntryRow(c.entries, e.id).Some? <==> e.id in EntryIds(c)
    ensures EntryRow(c.entries, e.id).Some? ==>
      (EntryCataloged(c, e) <==> SameSourceIdentity(EntryRow(c.entries, e.id).value, e))
  {
    var row := EntryRow(c.entries, e.id);
    if row.Some? {
      assert EntryKey(row.value) in EntryIds(c);
      forall x | x in c.entries && x.id == e.id
        ensures x == row.value
      {
        CacheTransactions.EntryUnique(c, x, row.value);
      }
    }
  }

  lemma NothingNew(c: Snapshot, a: Admission, limits: Limits)
    requires WellLinked(c) && NormalizeAdmission(c, a).Some? && Nothing(NormalizeAdmission(c, a).value)
    ensures AdmissionHolds(c, a, limits)
  {
    NormalizeExact(c, a);
    hide NormalizeAdmission, BlobIds, EntryIds, Fits;
    assert WithIncoming(c, a) == c;
  }

  lemma NewRecordsFit(c: Snapshot, a: Admission, limits: Limits)
    requires WellLinked(c) && NormalizeAdmission(c, a).Some? && WellShaped(NormalizeAdmission(c, a).value)
    requires Fits(Admitted(c, NormalizeAdmission(c, a).value), limits)
    ensures AdmissionHolds(c, a, limits)
  {
    NormalizeExact(c, a);
    hide NormalizeAdmission, BlobIds, EntryIds, Fits;
    assert WithIncoming(c, a) == Admitted(c, NormalizeAdmission(c, a).value);
  }

  /** From position `n` on, the claims are as they were listed. */
  ghost predicate StillPending(was: Snapshot, c: Snapshot, claims: seq<Claim>, n: nat) {
    forall i | n <= i < |claims| ::
      Pending(c, claims[i]) && ClaimedPinned(c, claims[i]) == ClaimedPinned(was, claims[i])
  }

  lemma AllPending(c: Snapshot, claims: seq<Claim>)
    requires forall k | k in claims :: Pending(c, k)
    ensures StillPending(c, c, claims, 0)
  {
    hide Pending;
    assert forall i | 0 <= i < |claims| :: claims[i] in claims;
  }

  lemma NextPending(was: Snapshot, c: Snapshot, claims: seq<Claim>, n: nat)
    requires n < |claims| && StillPending(was, c, claims, n)
    ensures Pending(c, claims[n]) && ClaimedPinned(c, claims[n]) == ClaimedPinned(was, claims[n])
    ensures claims[n].MaterializationClaim? ==> !ClaimedPinned(was, claims[n])
  {
  }

  lemma OthersPending(was: Snapshot, c: Snapshot, claimed: Snapshot, r: Snapshot, claims: seq<Claim>, n: nat,
        d: Disk, sizes: Sizes)
    requires n < |claims| && DistinctSubjects(claims) && StillPending(was, c, claims, n)
    requires Rely(c, claimed) && Consistent(World(d, claimed), sizes)
    requires FinalizeEviction(claimed, claims[n]).Some? && Rely(FinalizeEviction(claimed, claims[n]).value, r)
    ensures StillPending(was, r, claims, n + 1)
  {
    hide Rely, TidyCatalog, Pending, ClaimedPinned, FinalizeEviction;
    forall i | n + 1 <= i < |claims|
      ensures Pending(r, claims[i]) && ClaimedPinned(r, claims[i]) == ClaimedPinned(was, claims[i])
    {
      RelyPending(c, claimed, claims[n]);
      RelyPending(c, claimed, claims[i]);
      RelyPinned(c, claimed, claims[i]);
      FinalizeIndependent(claimed, claims[n], claims[i], sizes);
      RelyPending(FinalizeEviction(claimed, claims[n]).value, r, claims[i]);
      RelyPinned(FinalizeEviction(claimed, claims[n]).value, r, claims[i]);
    }
  }

  /** Once nothing is pending, the bytes under every former claim are gone. */
  lemma AllCleared(w: World, v: World)
    requires Resumes(w, v) && Settled(v.catalog)
    ensures forall k | Pending(w.catalog, k) :: Cleared(v.disk, k)
  {
    SettledNothing(v.catalog);
    hide Pending, Recoverable, Cleared, Emptier, Settled;
  }

  lemma ClearedNarrows(w: World, v: World, k: Claim)
    requires Narrows(w, v) && Cleared(w.disk, k)
    ensures Cleared(v.disk, k)
  {
    hide Cleared, Emptier, PublishedBlob, HasManifest, HasEntry;
    ClearedStays(w.disk, v.disk, k);
  }

  function TargetOf(k: Claim): EvictionTarget {
    match k
    case MaterializationClaim(id, _, _) => MaterializationEviction(id)
    case EntryClaim(id, _, _, _) => EntryEviction(id)
    case BlobClaim(id, _) => BlobEviction(id)
  }

  lemma BeginTarget(c: Snapshot, t: EvictionTarget, at: Time)
    requires BeginEviction(c, t, at).Some?
    ensures TargetOf(BeginEviction(c, t, at).value.1) == t
  {
  }

  lemma CalmFew(c: Snapshot, n: int)
    requires Calm(c, n)
    ensures Few(c, n)
  {
  }

  lemma NoneListed()
    ensures DistinctSubjects([])
  {
  }

  lemma ListCleared(d: Disk, listed: seq<Claim>)
    requires forall i | 0 <= i < |listed| :: Cleared(d, listed[i])
    ensures forall k | k in listed :: Cleared(d, k)
  {
    hide Cleared;
  }

  lemma ClearedThen(w: World, v: World, k: Claim)
    requires Resumes(w, v) && Cleared(w.disk, k)
    ensures Cleared(v.disk, k)
  {
    hide Pending, Recoverable, Cleared, Emptier;
    ClearedStays(w.disk, v.disk, k);
  }

  lemma StillRecoverable(w: World, v: World)
    requires Resumes(w, v) && AllRecoverable(w)
    ensures AllRecoverable(v)
  {
  }

  lemma CalmFinalize(d: Disk, c: Snapshot, k: Claim, n: int, sizes: Sizes)
    requires Consistent(World(d, c), sizes) && Calm(c, n) && Pending(c, k) && FinalizeEviction(c, k).Some?
    ensures Calm(FinalizeEviction(c, k).value, n)
  {
    FinalizeCalm(c, k, n, sizes);
  }

  lemma CalmPublish(d: Disk, c: Snapshot, blob: Blob, entry: Entry, n: int, sizes: Sizes)
    requires Consistent(World(d, c), sizes) && Settled(c) && Publish(c, blob, entry).Some? && 0 <= n
    ensures Calm(Publish(c, blob, entry).value, n)
  {
    hide Publish, Settled, TidyCatalog, TidyDisk, Backed, Calm;
    PublishSettled(c, blob, entry, sizes);
    SettledCalm(Publish(c, blob, entry).value, n);
  }

  lemma CalmHandoff(d: Disk, c: Snapshot, m: Materialization, reference: Reference, lease: Lease, n: int, sizes: Sizes)
    requires Consistent(World(d, c), sizes) && Settled(c) && CacheCatalog.PrepareHandoff(c, m, reference, lease).Some?
    requires 0 <= n
    ensures Calm(CacheCatalog.PrepareHandoff(c, m, reference, lease).value, n)
  {
    hide CacheCatalog.PrepareHandoff, Settled, TidyCatalog, TidyDisk, Backed, Calm;
    HandoffSettled(c, m, reference, lease, sizes);
    SettledCalm(CacheCatalog.PrepareHandoff(c, m, reference, lease).value, n);
  }

  /** Carrying out the only claim leaves a settled catalog. */
  lemma SettledAgain(w: World, claimed: Snapshot, k: Claim, v: World, sizes: Sizes)
    requires OnlySubject(w.catalog, SubjectOf(k)) && Pending(w.catalog, k) && Rely(w.catalog, claimed)
    requires Consistent(World(w.disk, claimed), sizes)
    requires FinalizeEviction(claimed, k).Some? && Rely(FinalizeEviction(claimed, k).value, v.catalog)
    requires Consistent(v, sizes)
    ensures Settled(v.catalog)
  {
    LastClaimSettles(w.catalog, claimed, k, v.catalog, sizes);
  }

  lemma MaterializationNotPinned(c: Snapshot, k: Claim)
    ensures k.MaterializationClaim? ==> !ClaimedPinned(c, k)
  {
  }

  lemma RelyConsistent(d: Disk, c: Snapshot, r: Snapshot, sizes: Sizes)
    requires Consistent(World(d, c), sizes) && Rely(c, r)
    ensures Consistent(World(d, r), sizes) && TidyCatalog(r, sizes)
  {
    MildKeeps(d, c, r, sizes);
  }

  lemma NarrowsDisk(d: Disk, e: Disk, c: Snapshot, r: Snapshot)
    requires Rely(c, r) && (forall id | id in e.blobs :: id in d.blobs)
    requires (forall id | id in e.entries :: id in d.entries && e.entries[id] == d.entries[id]) && Emptier(d, e)
    ensures Narrows(World(d, c), World(e, r))
  {
    EmptierRefl(d);
    NarrowsRely(d, d, c, r);
    FreesRely(d, e, c, r);
    hide Frees, Emptier, Rely;
  }

  lemma ClaimedEntryDeletable(d: Disk, c: Snapshot, k: Claim, sizes: Sizes)
    requires Consistent(World(d, c), sizes) && Pending(c, k) && k.EntryClaim?
    ensures EntryDeletable(DirectoryAt(d.entries, k.entryId), k.entryId, k.blobId, d.blobs)
  {
    var e :| e in c.entries && e.id == k.entryId && e.blobId == k.blobId;
    assert EntryBacked(d, c, e);
    EntryIsDeletable(d, c, e, sizes);
  }

  /** After its entry directory is gone, nothing needs the blob of a sole claim. */
  lemma SoleBlobFree(d: Disk, c: Snapshot, k: Claim, sizes: Sizes)
    requires Consistent(World(d, c), sizes) && Pending(c, k) && k.EntryClaim? && !k.shared && k.entryId !in d.entries
    ensures Loose(d, c, k.blobId) && (k.blobId !in d.blobs || d.blobs[k.blobId] == (k.blobId, k.blobSize))
  {
    var b :| b in c.blobs && b.id == k.blobId && b.size == k.blobSize && b.state == BlobDeleting;
    var x :| x in c.entries && x.id == k.entryId && x.blobId == k.blobId;
    assert Unheld(c, b.id);
    if PublishedBlob(c, k.blobId) { PublishedNotDeleting(c, k.blobId); }
  }

  lemma LoneBlobFree(d: Disk, c: Snapshot, k: Claim, sizes: Sizes)
    requires Consistent(World(d, c), sizes) && Pending(c, k) && k.BlobClaim?
    ensures Loose(d, c, k.blobId) && (k.blobId !in d.blobs || d.blobs[k.blobId] == (k.blobId, k.blobSize))
  {
    var b :| b in c.blobs && b.id == k.blobId && b.size == k.blobSize && b.state == BlobDeleting;
    if PublishedBlob(c, k.blobId) { PublishedNotDeleting(c, k.blobId); }
  }

  lemma StandsStill(d: Disk, c: Snapshot, sizes: Sizes)
    requires Consistent(World(d, c), sizes)
    ensures Rely(c, c)
  {
    RelyRefl(c);
  }

  lemma FinalizeLosesRows(d: Disk, c: Snapshot, k: Claim, sizes: Sizes)
    requires Consistent(World(d, c), sizes) && FinalizeEviction(c, k).Some?
    ensures Rows(FinalizeEviction(c, k).value) < Rows(c)
  {
    FinalizeRemovesRows(c, k);
  }

  lemma RelyRows(c: Snapshot, r: Snapshot)
    requires Rely(c, r)
    ensures Rows(r) == Rows(c)
  {
  }

  lemma BeginRows(c: Snapshot, t: EvictionTarget, at: Time)
    requires BeginEviction(c, t, at).Some?
    ensures Rows(BeginEviction(c, t, at).value.0) == Rows(c)
  {
  }

  lemma EntriesPresent(d: Disk, c: Snapshot, sizes: Sizes)
    requires Consistent(World(d, c), sizes)
    ensures forall id | id in d.entries :: d.entries[id].Present?
  {
  }

  lemma EmptierRefl(d: Disk)
    ensures Emptier(d, d)
  {
  }

  lemma LooseDrops(d: Disk, c: Snapshot, id: string, sizes: Sizes)
    requires Consistent(World(d, c), sizes) && Loose(d, c, id)
    ensures Consistent(World(d.(blobs := d.blobs - {id}), c), sizes)
  {
    DropBlobKeeps(d, c, id, sizes);
  }

  lemma SparesDropped(d: Disk, c: Snapshot, id: string)
    ensures Spares(d, d.(blobs := d.blobs - {id}), c, {}, {id}, {})
  {
    EmptierRefl(d);
    hide BeingDeleted;
  }

  lemma ClaimedCopy(c: Snapshot, k: Claim)
    requires Pending(c, k) && k.MaterializationClaim?
    ensures BeingDeleted(c, k.materializationId)
  {
  }

  lemma SparesEmptier(d: Disk, e: Disk, c: Snapshot, entries: set<string>, blobs: set<string>, copies: set<string>)
    requires Spares(d, e, c, entries, blobs, copies)
    ensures Emptier(d, e)
  {
  }

  lemma DiskRelyRefl(d: Disk, c: Snapshot)
    ensures DiskRely(d, d, c)
  {
  }

  lemma OutsideConsistent(w: World, s: OutsideStep, sizes: Sizes)
    requires Consistent(w, sizes)
    ensures Consistent(Outside(w, s), sizes)
    ensures Rely(w.catalog, Outside(w, s).catalog) && DiskRely(w.disk, Outside(w, s).disk, w.catalog)
  {
    OutsideRelies(w, s);
    hide Outside, Mild;
    var r := Outside(w, s);
    MildKeeps(w.disk, w.catalog, r.catalog, sizes);
    DiskOutsideKeeps(w.disk, r.disk, r.catalog, sizes);
  }
}
