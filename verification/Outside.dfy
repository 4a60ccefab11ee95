/** What other daemon goroutines and handoff owners may do to the stores between
    two steps of the manager: they do not take the manager's lock. */
module CacheOutside {
  import opened Wrappers
  import opened Keyed
  import opened CacheRecords
  import opened CacheEviction
  import opened CacheCatalog
  import opened CacheDeletion
  import opened CacheStores
  import opened CacheTransactions
  import opened CacheChanges

  datatype OutsideStep =
    | MarkDirty(materializationId: string, referenceId: string, leaseId: string, contentId: string,
      size: Int64, at: Time)
    | ReleaseHandoff(materializationId: string, referenceId: string, leaseId: string, at: Time)
    | HeartbeatLease(leaseId: string, daemonId: string, heartbeatAt: Time, expiresAt: Time, graceUntil: Time)
    | MarkEntryUnknown(entryId: string)
    | EditContent(materializationId: string, directory: Directory)

  predicate ActiveHandoff(c: Snapshot, id: string, referenceId: string, leaseId: string) {
    && (exists l | l in c.leases :: l.id == leaseId && l.target == MaterializationTarget(id) && l.state == Active)
    && (exists r | r in c.references :: r.id == referenceId && r.target == MaterializationTarget(id))
  }

  function Dirtied(m: Materialization, contentId: string, size: Int64, at: Time): Materialization {
    m.(currentBlobId := contentId, size := size, state := Dirty, lastAccessAt := Later(m.lastAccessAt, at))
  }

  function DirtyRows(ms: seq<Materialization>, id: string, contentId: string, size: Int64,
        at: Time): seq<Materialization> {
    seq(|ms|, i requires 0 <= i < |ms| =>
      if ms[i].id == id && (ms[i].state == Clean || ms[i].state == Dirty) then Dirtied(ms[i], contentId, size, at)
        else ms[i])
  }

  function ReleasedAt(l: Lease, at: Time): Lease {
    l.(state := Released, heartbeatAt := Later(l.heartbeatAt, at), expiresAt := Later(l.expiresAt, at),
       graceUntil := Later(l.graceUntil, Later(l.expiresAt, at)), releasedAt := at)
  }

  function ReleaseRows(leases: seq<Lease>, leaseId: string, at: Time): seq<Lease> {
    seq(|leases|, i requires 0 <= i < |leases| =>
      if leases[i].id == leaseId && leases[i].state == Active then ReleasedAt(leases[i], at) else leases[i])
  }

  function DropHandoff(references: seq<Reference>, referenceId: string, materializationId: string): seq<Reference> {
    if references == [] then []
    else
      var rest := DropHandoff(references[..|references| - 1], referenceId, materializationId);
      var last := references[|references| - 1];
      if last.id == referenceId && last.owner.Handoff? && last.target == MaterializationTarget(materializationId)
        then rest else rest + [last]
  }

  function HeartbeatRows(leases: seq<Lease>, s: OutsideStep): seq<Lease>
    requires s.HeartbeatLease?
  {
    seq(|leases|, i requires 0 <= i < |leases| =>
      if leases[i].id == s.leaseId && leases[i].state == Active
      then leases[i].(daemonId := s.daemonId, heartbeatAt := s.heartbeatAt, expiresAt := s.expiresAt,
        graceUntil := s.graceUntil)
      else leases[i])
  }

  function UnknownRows(entries: seq<Entry>, id: string): seq<Entry> {
    seq(|entries|, i requires 0 <= i < |entries| => if entries[i].id == id then entries[i].(freshness := Unknown)
      else entries[i])
  }

  predicate BeingDeleted(c: Snapshot, materializationId: string) {
    exists m | m in c.materializations :: m.id == materializationId && m.state == Deleting
  }

  /** Nobody writes to the copy: it is being deleted, or not cataloged. */
  predicate Frozen(c: Snapshot, materializationId: string) {
    BeingDeleted(c, materializationId) || forall m | m in c.materializations :: m.id != materializationId
  }

  /** One outside step. A request that does not match the catalog does nothing.
      Owners write to copies that are there and cataloged, and not being deleted. */
  function Outside(w: World, s: OutsideStep): World {
    var c := w.catalog;
    match s
    case MarkDirty(id, referenceId, leaseId, contentId, size, at) =>
      if size < 0 || !ActiveHandoff(c, id, referenceId, leaseId) then w
      else w.(catalog := c.(materializations := DirtyRows(c.materializations, id, contentId, size, at)))
    case ReleaseHandoff(id, referenceId, leaseId, at) =>
      if !(exists l | l in c.leases :: l.id == leaseId && l.target == MaterializationTarget(id)) then w
      else w.(catalog := c.(leases := ReleaseRows(c.leases, leaseId, at),
        references := DropHandoff(c.references, referenceId, id)))
    case HeartbeatLease(_, _, _, _, _) => w.(catalog := c.(leases := HeartbeatRows(c.leases, s)))
    case MarkEntryUnknown(id) => w.(catalog := c.(entries := UnknownRows(c.entries, id)))
    case EditContent(id, directory) =>
      if Frozen(c, id) || DirectoryAt(w.disk.materializations, id).Absent? then w
      else w.(disk := w.disk.(materializations := w.disk.materializations[id := directory]))
  }

  /** What the manager may rely on across outside steps. */
  ghost predicate Rely(c: Snapshot, r: Snapshot) {
    && Mild(c, r)
    && (forall m | m in c.materializations && m.state == Deleting :: m in r.materializations)
    && (forall n | n in r.materializations && n.state == Deleting :: n in c.materializations)
  }

  ghost predicate DiskRely(d: Disk, e: Disk, c: Snapshot) {
    && e.blobs == d.blobs && e.entries == d.entries
    && (forall id | Frozen(c, id) :: DirectoryAt(e.materializations, id) == DirectoryAt(d.materializations, id))
    && (forall id | DirectoryAt(d.materializations, id).Absent? :: DirectoryAt(e.materializations, id).Absent?)
  }

  lemma RelyRefl(c: Snapshot)
    requires WellLinked(c)
    ensures Rely(c, c)
  {
  }

  lemma LeasesNotRevived(c: Snapshot, leases: seq<Lease>)
    requires |leases| == |c.leases|
    requires forall i | 0 <= i < |leases| ::
      leases[i].target == c.leases[i].target && (c.leases[i].state == Released ==> leases[i].state == Released)
    ensures forall t :: Leased(c.(leases := leases), t) ==> Leased(c, t)
  {
    var r := c.(leases := leases);
    forall t | Leased(r, t) ensures Leased(c, t) {
      var l :| l in r.leases && l.target == t && l.state != Released;
      var i :| 0 <= i < |leases| && leases[i] == l;
      assert c.leases[i] in c.leases;
    }
  }

  lemma HandoffDropped(references: seq<Reference>, referenceId: string, id: string)
    ensures forall x | x in DropHandoff(references, referenceId, id) :: x in references
    ensures forall x | x in references && x.owner.EvictionClaim? :: x in DropHandoff(references, referenceId, id)
  {
    if references != [] { HandoffDropped(references[..|references| - 1], referenceId, id); }
  }

  lemma DirtyMild(c: Snapshot, id: string, contentId: string, size: Int64, at: Time)
    requires WellLinked(c) && 0 <= size
    ensures Mild(c, c.(materializations := DirtyRows(c.materializations, id, contentId, size, at)))
  {
    var r := c.(materializations := DirtyRows(c.materializations, id, contentId, size, at));
    forall i | 0 <= i < |c.materializations| ensures SameSource(c.materializations[i], r.materializations[i]) {
      assert c.materializations[i] in c.materializations;
    }
    assert forall t :: Leased(r, t) == Leased(c, t);
    hide WellLinked, Leased, Referenced, SameSource;
    forall n | n in r.materializations && n.state == Deleting ensures n in c.materializations {
      var i :| 0 <= i < |r.materializations| && r.materializations[i] == n;
      assert c.materializations[i] == n;
    }
  }

  lemma DirtyKeepsDeleting(c: Snapshot, id: string, contentId: string, size: Int64, at: Time)
    requires WellLinked(c) && 0 <= size
    ensures Rely(c, c.(materializations := DirtyRows(c.materializations, id, contentId, size, at)))
  {
    var r := c.(materializations := DirtyRows(c.materializations, id, contentId, size, at));
    DirtyMild(c, id, contentId, size, at);
    hide Mild, WellLinked;
    forall m | m in c.materializations && m.state == Deleting ensures m in r.materializations {
      var i :| 0 <= i < |c.materializations| && c.materializations[i] == m;
      assert r.materializations[i] == m;
    }
    forall n | n in r.materializations && n.state == Deleting ensures n in c.materializations {
      var i :| 0 <= i < |r.materializations| && r.materializations[i] == n;
      assert c.materializations[i] == n;
    }
  }

  // ----- Handing out and giving back -----

  lemma {:induction false} DropsOnly(references: seq<Reference>, referenceId: string, id: string)
    ensures forall x :: x in DropHandoff(references, referenceId, id) <==>
      x in references && !(x.id == referenceId && x.owner.Handoff? && x.target == MaterializationTarget(id))
  {
    if references != [] {
      DropsOnly(references[..|references| - 1], referenceId, id);
      assert references == references[..|references| - 1] + [references[|references| - 1]];
    }
  }

  /** A release undoes a handoff: the copy it handed out can be evicted again, and no
      other reference or lease is touched. */
  lemma ReleaseUndoes(d: Disk, c: Snapshot, m: Materialization, reference: Reference, lease: Lease, at: Time)
    requires WellLinked(c) && PrepareHandoff(c, m, reference, lease).Some? && reference.owner.Handoff?
    requires !Referenced(c, MaterializationTarget(m.id)) && !Leased(c, MaterializationTarget(m.id))
    ensures var r := PrepareHandoff(c, m, reference, lease).value;
      var x := Outside(World(d, r), ReleaseHandoff(m.id, reference.id, lease.id, at)).catalog;
      && (forall y :: y in x.references <==> y in c.references)
      && (forall l :: l in x.leases <==> l in c.leases || l == ReleasedAt(lease, at))
      && x == r.(references := x.references, leases := x.leases)
      && (Claimable(x, MaterializationEviction(m.id)) <==> m.state == Clean && !m.pinned)
  {
    hide Referenced, Leased, WellLinked, Claimable, PrepareHandoff, DropHandoff, ReleaseRows, ReleasedAt;
    var r := PrepareHandoff(c, m, reference, lease).value;
    HandoffRows(c, m, reference, lease);
    HandoffLinked(c, m, reference, lease);
    var x := Outside(World(d, r), ReleaseHandoff(m.id, reference.id, lease.id, at)).catalog;
    assert lease in r.leases && m in r.materializations;
    DropsOnly(r.references, reference.id, m.id);
    assert forall y | y in c.references :: ReferenceKey(y) in Keys(c.references, ReferenceKey);
    ReleasedLeases(c.leases, lease, at);
    assert x == r.(references := x.references, leases := x.leases);
    FreeAgain(c, r, x, m, lease, at);
  }

  lemma HandoffRows(c: Snapshot, m: Materialization, reference: Reference, lease: Lease)
    requires WellLinked(c) && PrepareHandoff(c, m, reference, lease).Some?
    ensures PrepareHandoff(c, m, reference, lease).value
      == c.(materializations := c.materializations + [m], references := c.references + [reference],
            leases := c.leases + [lease])
    ensures reference.id !in Keys(c.references, ReferenceKey) && lease.id !in Keys(c.leases, LeaseKey)
    ensures lease.state == Active && lease.target == reference.target == MaterializationTarget(m.id)
  {
    HandoffExact(c, m, reference, lease);
    hide WellLinked, PublishedBlob, Claimed;
  }

  lemma FreeAgain(c: Snapshot, r: Snapshot, x: Snapshot, m: Materialization, lease: Lease, at: Time)
    requires WellLinked(r) && m in r.materializations && x.materializations == r.materializations
    requires !Referenced(c, MaterializationTarget(m.id)) && !Leased(c, MaterializationTarget(m.id))
    requires forall y | y in x.references :: y in c.references
    requires forall l | l in x.leases :: l in c.leases || l == ReleasedAt(lease, at)
    ensures Claimable(x, MaterializationEviction(m.id)) <==> m.state == Clean && !m.pinned
  {
    forall n | n in r.materializations && n.id == m.id ensures n == m {
      KeyInjective(r.materializations, MaterializationKey, n, m);
    }
    hide WellLinked;
  }

  lemma ReleasedLeases(leases: seq<Lease>, lease: Lease, at: Time)
    requires lease.id !in Keys(leases, LeaseKey) && lease.state == Active
    ensures forall l :: l in ReleaseRows(leases + [lease], lease.id, at) <==> l in leases || l == ReleasedAt(lease, at)
  {
    var all := leases + [lease];
    var r := ReleaseRows(all, lease.id, at);
    assert r[|leases|] == ReleasedAt(lease, at);
    forall l | l in leases ensures l in r {
      var i :| 0 <= i < |leases| && leases[i] == l;
      assert LeaseKey(leases[i]) in Keys(leases, LeaseKey) && r[i] == leases[i];
    }
    forall l | l in r ensures l in leases || l == ReleasedAt(lease, at) {
      var i :| 0 <= i < |r| && r[i] == l;
      if i < |leases| { assert all[i] == leases[i] && LeaseKey(leases[i]) in Keys(leases, LeaseKey); }
    }
  }

  /** Content an owner reported as changed is recorded, and the copy is not evicted
      any more, whatever is released. */
  lemma DirtyKeeps(w: World, id: string, referenceId: string, leaseId: string, contentId: string, size: Int64, at: Time,
                   m: Materialization)
    requires WellLinked(w.catalog) && 0 <= size && ActiveHandoff(w.catalog, id, referenceId, leaseId)
    requires m in w.catalog.materializations && m.id == id && (m.state == Clean || m.state == Dirty)
    ensures var r := Outside(w, MarkDirty(id, referenceId, leaseId, contentId, size, at)).catalog;
      && Dirtied(m, contentId, size, at) in r.materializations
      && (forall n | n in r.materializations && n.id == id ::
           n.state == Dirty && n.currentBlobId == contentId && n.size == size && n.entryId == m.entryId)
      && (forall n: Materialization | n.id != id :: n in r.materializations <==> n in w.catalog.materializations)
      && !Claimable(r, MaterializationEviction(id))
  {
    var c := w.catalog;
    var r := Outside(w, MarkDirty(id, referenceId, leaseId, contentId, size, at)).catalog;
    assert r.materializations == DirtyRows(c.materializations, id, contentId, size, at);
    forall x | x in c.materializations && x.id == id ensures x == m {
      KeyInjective(c.materializations, MaterializationKey, x, m);
    }
    hide WellLinked, ActiveHandoff, Outside;
    DirtiedRows(c.materializations, m, contentId, size, at);
  }

  lemma DirtiedRows(ms: seq<Materialization>, m: Materialization, contentId: string, size: Int64, at: Time)
    requires m in ms && (m.state == Clean || m.state == Dirty) && forall x | x in ms && x.id == m.id :: x == m
    ensures var r := DirtyRows(ms, m.id, contentId, size, at);
      && Dirtied(m, contentId, size, at) in r
      && (forall n | n in r && n.id == m.id :: n == Dirtied(m, contentId, size, at))
      && (forall n: Materialization | n.id != m.id :: n in r <==> n in ms)
  {
    var r := DirtyRows(ms, m.id, contentId, size, at);
    var k :| 0 <= k < |ms| && ms[k] == m;
    assert r[k] == Dirtied(m, contentId, size, at);
    forall n | n in r && n.id == m.id ensures n == Dirtied(m, contentId, size, at) {
      var i :| 0 <= i < |r| && r[i] == n;
      assert ms[i] in ms;
    }
    forall n: Materialization | n.id != m.id ensures n in r <==> n in ms {
      if n in ms {
        var i :| 0 <= i < |ms| && ms[i] == n;
        assert r[i] == n;
      }
      if n in r {
        var i :| 0 <= i < |r| && r[i] == n;
        assert ms[i] == n;
      }
    }
  }

  /** Every outside step keeps to the rely condition. */
  lemma OutsideRelies(w: World, s: OutsideStep)
    requires WellLinked(w.catalog)
    ensures Rely(w.catalog, Outside(w, s).catalog)
    ensures DiskRely(w.disk, Outside(w, s).disk, w.catalog)
  {
    var c := w.catalog;
    RelyRefl(c);
    match s
    case MarkDirty(id, _, _, contentId, size, at) =>
      if 0 <= size { DirtyKeepsDeleting(c, id, contentId, size, at); }
    case ReleaseHandoff(id, referenceId, leaseId, at) =>
      LeasesNotRevived(c, ReleaseRows(c.leases, leaseId, at));
      HandoffDropped(c.references, referenceId, id);
      var mid := c.(leases := ReleaseRows(c.leases, leaseId, at));
      var r := mid.(references := DropHandoff(c.references, referenceId, id));
      assert forall t :: Leased(r, t) == Leased(mid, t);
    case HeartbeatLease(_, _, _, _, _) =>
      LeasesNotRevived(c, HeartbeatRows(c.leases, s));
    case MarkEntryUnknown(id) =>
      var r := c.(entries := UnknownRows(c.entries, id));
      assert forall t :: Leased(r, t) == Leased(c, t);
    case EditContent(id, directory) =>
  }

  lemma MildTrans(a: Snapshot, b: Snapshot, c: Snapshot)
    requires Rely(a, b) && Rely(b, c)
    ensures Mild(a, c)
  {
    hide Leased;
    forall i | 0 <= i < |a.entries| ensures c.entries[i] == a.entries[i].(freshness := c.entries[i].freshness) {
      assert b.entries[i] == a.entries[i].(freshness := b.entries[i].freshness);
    }
    forall i | 0 <= i < |a.materializations| ensures SameSource(a.materializations[i], c.materializations[i]) {
      assert SameSource(a.materializations[i], b.materializations[i])
        && SameSource(b.materializations[i], c.materializations[i]);
    }
    hide SameSource;
  }

  lemma RelyTrans(a: Snapshot, b: Snapshot, c: Snapshot)
    requires Rely(a, b) && Rely(b, c)
    ensures Rely(a, c)
  {
    MildTrans(a, b, c);
    hide Mild;
  }

  lemma RelyDeleting(a: Snapshot, b: Snapshot)
    requires Rely(a, b)
    ensures forall id :: BeingDeleted(a, id) == BeingDeleted(b, id)
  {
    hide Mild;
  }

  lemma RelyFrozen(a: Snapshot, b: Snapshot)
    requires Rely(a, b)
    ensures forall id :: Frozen(a, id) == Frozen(b, id)
  {
    RelyDeleting(a, b);
    assert |a.materializations| == |b.materializations|;
    assert forall i | 0 <= i < |a.materializations| :: a.materializations[i].id == b.materializations[i].id;
    hide Rely, BeingDeleted;
    forall id ensures Frozen(a, id) == Frozen(b, id) { SameIds(a.materializations, b.materializations, id); }
  }

  lemma SameIds(a: seq<Materialization>, b: seq<Materialization>, id: string)
    requires |a| == |b| && forall i | 0 <= i < |a| :: a[i].id == b[i].id
    ensures (forall m | m in a :: m.id != id) <==> (forall m | m in b :: m.id != id)
  {
    if exists m :: m in a && m.id == id {
      var m :| m in a && m.id == id;
      var i :| 0 <= i < |a| && a[i] == m;
      assert b[i] in b;
    }
    if exists m :: m in b && m.id == id {
      var m :| m in b && m.id == id;
      var i :| 0 <= i < |b| && b[i] == m;
      assert a[i] in a;
    }
  }

  lemma DiskRelyTrans(d: Disk, e: Disk, f: Disk, a: Snapshot, b: Snapshot)
    requires DiskRely(d, e, a) && Rely(a, b) && DiskRely(e, f, b)
    ensures DiskRely(d, f, a)
  {
    RelyFrozen(a, b);
    hide Rely, Frozen;
  }
}
