/** The greedy eviction planner. */
module CachePlanner {
  import opened Wrappers
  import opened Keyed
  import opened CacheRecords
  import opened CacheLeases
  import opened CacheAccounting
  import opened CacheEviction
  import opened CacheEffects
  import opened CacheCandidates

  // ----- Limits, on snapshots and on reported usage -----

  ghost predicate FitsBytes(s: Snapshot, limits: Limits) {
    && GlobalBytes(s) <= limits.globalBytes
    && forall w | w in WorkspaceIds(s) :: WorkspaceBytes(s, {w}) <= limits.workspaceBytes
  }

  ghost predicate Fits(s: Snapshot, limits: Limits) {
    FitsBytes(s, limits) && Objects(s) <= limits.globalEntries
  }

  /** Going from `s` to `r` lowers some violated limit's number. */
  ghost predicate Improves(s: Snapshot, r: Snapshot, limits: Limits) {
    || (GlobalBytes(s) > limits.globalBytes && GlobalBytes(r) < GlobalBytes(s))
    || (Objects(s) > limits.globalEntries && Objects(r) < Objects(s))
    || exists w | w in WorkspaceIds(s) ::
      WorkspaceBytes(s, {w}) > limits.workspaceBytes && WorkspaceBytes(r, {w}) < WorkspaceBytes(s, {w})
  }

  predicate WithinByteLimits(usage: Usage, limits: Limits) {
    usage.bytes <= limits.globalBytes && forall w | w in usage.workspaces ::
      usage.workspaces[w] <= limits.workspaceBytes
  }

  predicate WithinLimits(usage: Usage, limits: Limits) {
    WithinByteLimits(usage, limits) && usage.Objects() <= limits.globalEntries
  }

  predicate ImprovesViolation(before: Usage, after: Usage, limits: Limits) {
    || (before.bytes > limits.globalBytes && after.bytes < before.bytes)
    || (before.Objects() > limits.globalEntries && after.Objects() < before.Objects())
    || exists w | w in before.workspaces ::
      before.workspaces[w] > limits.workspaceBytes && after.WorkspaceBytes(w) < before.workspaces[w]
  }

  lemma UsageMeansFits(s: Snapshot, limits: Limits)
    requires Countable(s)
    ensures WithinByteLimits(UsageOf(s), limits) <==> FitsBytes(s, limits)
    ensures WithinLimits(UsageOf(s), limits) <==> Fits(s, limits)
  {
    hide WellLinked, GlobalBytes, WorkspaceBytes, SharedBytes;
    var u := UsageOf(s);
    assert forall w :: w in u.workspaces <==> w in WorkspaceIds(s);
  }

  /** A workspace without entries has no bytes of its own. */
  lemma AbsentWorkspace(s: Snapshot, w: string)
    requires w !in WorkspaceIds(s)
    ensures WorkspaceBytes(s, {w}) == 0
  {
    forall b | b in s.blobs ensures Owners(s, b.id) != {w} {
      assert w !in Owners(s, b.id);
    }
    assert OwnedBlobs(s, {w}) == {} && OwnedMaterializations(s, {w}) == {};
    BytesNone(s.blobs, BlobKey, BlobSize, {});
    BytesNone(s.materializations, MaterializationKey, MaterializationSize, {});
  }

  lemma UsageMeansImproves(s: Snapshot, r: Snapshot, limits: Limits)
    requires Countable(s) && Countable(r)
    ensures ImprovesViolation(UsageOf(s), UsageOf(r), limits) <==> Improves(s, r, limits)
  {
    hide WellLinked, GlobalBytes, WorkspaceBytes, SharedBytes;
    var u, v := UsageOf(s), UsageOf(r);
    assert forall w :: w in u.workspaces <==> w in WorkspaceIds(s);
    forall w ensures v.WorkspaceBytes(w) == WorkspaceBytes(r, {w}) {
      if w !in WorkspaceIds(r) { AbsentWorkspace(r, w); }
    }
  }

  // ----- What a plan is -----

  /** The first candidate, in order, whose eviction improves a violated limit. */
  ghost predicate FirstImproving(s: Snapshot, mgr: Option<LeaseManager>, limits: Limits, c: Candidate) {
    && IsCandidate(s, mgr, FitsBytes(s, limits), c)
    && Improves(s, Evict(s, mgr, c.target), limits)
    && forall d | IsCandidate(s, mgr, FitsBytes(s, limits), d) && Before(d, c) ::
      !Improves(s, Evict(s, mgr, d.target), limits)
  }

  /** No single remaining candidate improves any violated limit. */
  ghost predicate Stuck(s: Snapshot, mgr: Option<LeaseManager>, limits: Limits) {
    forall t | Eligible(s, mgr, FitsBytes(s, limits), t) :: !Improves(s, Evict(s, mgr, t), limits)
  }

  /** The snapshot after evicting the picks in turn. */
  ghost function After(s: Snapshot, mgr: Option<LeaseManager>, picks: seq<Candidate>): Snapshot {
    if picks == [] then s else Evict(After(s, mgr, picks[..|picks| - 1]), mgr, picks[|picks| - 1].target)
  }

  /** Every target the picks list, in order. */
  ghost function Listed(s: Snapshot, mgr: Option<LeaseManager>, picks: seq<Candidate>): seq<EvictionTarget> {
    if picks == [] then []
    else
      var init := picks[..|picks| - 1];
      Listed(s, mgr, init) + Consequences(After(s, mgr, init), mgr, picks[|picks| - 1].target)
  }

  /** Each pick was made while over a limit and was the first improving one. */
  ghost predicate Greedy(s: Snapshot, mgr: Option<LeaseManager>, limits: Limits, picks: seq<Candidate>) {
    picks == [] ||
    var init := picks[..|picks| - 1];
    && Greedy(s, mgr, limits, init)
    && !Fits(After(s, mgr, init), limits)
    && FirstImproving(After(s, mgr, init), mgr, limits, picks[|picks| - 1])
  }

  /** A run on a snapshot that fits picks nothing. */
  lemma {:induction false} FittingPicksNothing(s: Snapshot, mgr: Option<LeaseManager>, limits: Limits,
        picks: seq<Candidate>)
    requires Greedy(s, mgr, limits, picks) && Fits(s, limits)
    ensures picks == []
  {
    if picks != [] {
      FittingPicksNothing(s, mgr, limits, picks[..|picks| - 1]);
    }
  }

  lemma {:induction false} PickWasFirst(s: Snapshot, mgr: Option<LeaseManager>, limits: Limits,
        picks: seq<Candidate>, i: nat)
    requires Greedy(s, mgr, limits, picks) && i < |picks|
    ensures !Fits(After(s, mgr, picks[..i]), limits)
    ensures FirstImproving(After(s, mgr, picks[..i]), mgr, limits, picks[i])
    decreases |picks|
  {
    hide FirstImproving, Fits;
    var init := picks[..|picks| - 1];
    if i < |init| {
      PickWasFirst(s, mgr, limits, init, i);
      assert init[..i] == picks[..i];
    }
  }

  /** Every pick is the least recently used among the candidates that would improve
      a violated limit at that point; among equals kind and identifier decide. */
  lemma OldestFirst(s: Snapshot, mgr: Option<LeaseManager>, limits: Limits, picks: seq<Candidate>, i: nat, d: Candidate)
    requires Greedy(s, mgr, limits, picks) && i < |picks|
    requires var mid := After(s, mgr, picks[..i]);
      IsCandidate(mid, mgr, FitsBytes(mid, limits), d) && Improves(mid, Evict(mid, mgr, d.target), limits)
    ensures picks[i].lastAccess <= d.lastAccess
    ensures picks[i].lastAccess == d.lastAccess ==> !StringLess(Kind(d.target), Kind(picks[i].target))
    ensures picks[i].lastAccess == d.lastAccess && Kind(d.target) == Kind(picks[i].target) ==>
      !StringLess(Id(d.target), Id(picks[i].target))
  {
    PickWasFirst(s, mgr, limits, picks, i);
    hide Greedy, After, Improves, Evict, IsCandidate, FitsBytes, Fits, StringLess;
    assert !Before(d, picks[i]);
    BeforeOrder(d, picks[i], d);
    StringLessOrder(Kind(d.target), Kind(picks[i].target), Kind(d.target));
  }

  lemma AppendPick(s: Snapshot, mgr: Option<LeaseManager>, limits: Limits, picks: seq<Candidate>, c: Candidate)
    requires Greedy(s, mgr, limits, picks) && !Fits(After(s, mgr, picks), limits)
    requires FirstImproving(After(s, mgr, picks), mgr, limits, c)
    ensures Greedy(s, mgr, limits, picks + [c])
    ensures After(s, mgr, picks + [c]) == Evict(After(s, mgr, picks), mgr, c.target)
    ensures Listed(s, mgr, picks + [c]) == Listed(s, mgr, picks) + Consequences(After(s, mgr, picks), mgr, c.target)
  {
    assert (picks + [c])[..|picks|] == picks;
  }

  lemma CandidateEligible(s: Snapshot, mgr: Option<LeaseManager>, allowShared: bool, c: Candidate)
    requires IsCandidate(s, mgr, allowShared, c)
    ensures Eligible(s, mgr, allowShared, c.target) && Eligible(s, mgr, true, c.target)
  {
    CandidateForEligible(s, mgr, allowShared, c.target);
    EligibleRelax(s, mgr, allowShared, c.target);
  }

  /** What every run of picks keeps: links, guarded targets, and totals that
      only fall. Accounting therefore cannot start to fail. */
  lemma {:induction false} PicksKeep(s: Snapshot, mgr: Option<LeaseManager>, limits: Limits, picks: seq<Candidate>)
    requires Sound(s, mgr) && Greedy(s, mgr, limits, picks)
    ensures Sound(After(s, mgr, picks), mgr) && Shrinks(s, After(s, mgr, picks))
    ensures Countable(s) ==> Countable(After(s, mgr, picks))
  {
    hide Sound, Shrinks, FirstImproving, Fits, Evict, IsCandidate;
    if picks == [] {
      ShrinksReflexive(s);
    } else {
      var init, c := picks[..|picks| - 1], picks[|picks| - 1];
      var mid := After(s, mgr, init);
      PicksKeep(s, mgr, limits, init);
      FirstImprovingIsCandidate(mid, mgr, limits, c);
      CandidateEligible(mid, mgr, FitsBytes(mid, limits), c);
      EvictKeepsSound(mid, mgr, c.target);
      EvictEffect(mid, mgr, c.target);
      ShrinksTransitive(s, mid, After(s, mgr, picks));
    }
    SoundCountable(s, After(s, mgr, picks), mgr);
  }

  lemma ShrinksReflexive(s: Snapshot)
    ensures Shrinks(s, s)
  {
  }

  lemma FirstImprovingIsCandidate(s: Snapshot, mgr: Option<LeaseManager>, limits: Limits, c: Candidate)
    requires FirstImproving(s, mgr, limits, c)
    ensures IsCandidate(s, mgr, FitsBytes(s, limits), c)
  {
  }

  lemma SoundCountable(s: Snapshot, r: Snapshot, mgr: Option<LeaseManager>)
    requires Sound(r, mgr) && Shrinks(s, r)
    ensures Countable(s) ==> Countable(r)
  {
  }

  /** The plan's result is the snapshot with exactly the listed targets removed. */
  lemma {:induction false} AfterIsRemoval(s: Snapshot, mgr: Option<LeaseManager>, picks: seq<Candidate>)
    ensures After(s, mgr, picks) == RemoveAll(s, Listed(s, mgr, picks))
  {
    if picks != [] {
      var init := picks[..|picks| - 1];
      AfterIsRemoval(s, mgr, init);
      RemoveAllAppend(s, Listed(s, mgr, init), Consequences(After(s, mgr, init), mgr, picks[|picks| - 1].target));
    }
  }

  /** What a listed target may be: never a pinned entry, never a pinned,
      non-clean or guarded materialization, never a guarded blob. */
  ghost predicate Unprotected(s: Snapshot, mgr: Option<LeaseManager>, t: EvictionTarget) {
    match t
    case EntryEviction(id) => exists e | e in s.entries :: e.id == id && !e.pinned && !BlobGuarded(s, mgr, e.blobId)
    case MaterializationEviction(id) => exists m | m in s.materializations ::
      m.id == id && MaterializationEvictable(s, mgr, m)
    case BlobEviction(id) => id in BlobIds(s) && !BlobGuarded(s, mgr, id)
  }

  lemma ConsequencesUnprotected(s: Snapshot, mgr: Option<LeaseManager>, t: EvictionTarget)
    requires WellLinked(s) && Eligible(s, mgr, true, t)
    ensures forall u | u in Consequences(s, mgr, t) :: Unprotected(s, mgr, u)
  {
    if t.EntryEviction? {
      var e :| e in s.entries && e.id == t.entryId && EntryEvictable(s, mgr, true, e);
      EntryConsequences(s, mgr, e);
    } else if t.BlobEviction? {
      var b :| b in s.blobs && b.id == t.blobId && BlobEvictable(s, mgr, b);
      assert BlobKey(b) in BlobIds(s);
    }
  }

  lemma {:induction false} ListedUnprotected(s: Snapshot, mgr: Option<LeaseManager>,
        limits: Limits, picks: seq<Candidate>)
    requires Sound(s, mgr) && Greedy(s, mgr, limits, picks)
    ensures forall t | t in Listed(s, mgr, picks) :: Unprotected(s, mgr, t)
  {
    if picks != [] {
      hide Sound, FirstImproving, Fits, Evict, IsCandidate, Unprotected;
      var init, c := picks[..|picks| - 1], picks[|picks| - 1];
      var mid := After(s, mgr, init);
      ListedUnprotected(s, mgr, limits, init);
      PicksKeep(s, mgr, limits, init);
      FirstImprovingIsCandidate(mid, mgr, limits, c);
      CandidateEligible(mid, mgr, FitsBytes(mid, limits), c);
      SoundLinked(mid, mgr);
      ConsequencesUnprotected(mid, mgr, c.target);
      AfterIsRemoval(s, mgr, init);
      forall t | t in Consequences(mid, mgr, c.target) ensures Unprotected(s, mgr, t) {
        UnprotectedEarlier(s, mgr, Listed(s, mgr, init), t);
      }
    }
  }

  lemma SoundLinked(s: Snapshot, mgr: Option<LeaseManager>)
    requires Sound(s, mgr)
    ensures WellLinked(s)
  {
  }

  lemma UnprotectedEarlier(s: Snapshot, mgr: Option<LeaseManager>, gone: seq<EvictionTarget>, t: EvictionTarget)
    requires Unprotected(RemoveAll(s, gone), mgr, t)
    ensures Unprotected(s, mgr, t)
  {
    var r := RemoveAll(s, gone);
    RemoveAllMembers(s, gone);
    assert Guarded(r, mgr) == Guarded(s, mgr);
    if t.BlobEviction? {
      var b :| b in r.blobs && b.id == t.blobId;
      assert BlobKey(b) in BlobIds(s);
    }
  }

  /** Plan safety: whatever a greedy plan lists, the snapshot without it keeps
      every link and every guarded target, and nothing protected is listed. */
  lemma PlanIsSafe(s: Snapshot, mgr: Option<LeaseManager>, limits: Limits, picks: seq<Candidate>)
    requires ValidSnapshot(s) && Greedy(s, mgr, limits, picks)
    ensures var r := RemoveAll(s, Listed(s, mgr, picks));
      && (forall e | e in r.entries :: exists b | b in r.blobs :: b.id == e.blobId)
      && (forall m | m in r.materializations ::
            (exists e | e in r.entries :: e.id == m.entryId) && (exists b | b in r.blobs :: b.id == m.baselineBlobId))
      && (forall x | x in r.references :: TargetExists(r, x.target))
      && (forall l | l in r.leases :: TargetExists(r, l.target) || IsReclaimable(mgr, l))
    ensures forall t | t in Listed(s, mgr, picks) :: Unprotected(s, mgr, t)
  {
    ValidIsSound(s, mgr);
    PicksKeep(s, mgr, limits, picks);
    AfterIsRemoval(s, mgr, picks);
    ListedUnprotected(s, mgr, limits, picks);
    SoundMeans(RemoveAll(s, Listed(s, mgr, picks)), mgr);
  }

  lemma SoundMeans(r: Snapshot, mgr: Option<LeaseManager>)
    requires Sound(r, mgr)
    ensures forall e | e in r.entries :: exists b | b in r.blobs :: b.id == e.blobId
    ensures forall m | m in r.materializations ::
      (exists e | e in r.entries :: e.id == m.entryId) && (exists b | b in r.blobs :: b.id == m.baselineBlobId)
    ensures forall x | x in r.references :: TargetExists(r, x.target)
    ensures forall l | l in r.leases :: TargetExists(r, l.target) || IsReclaimable(mgr, l)
  {
  }
}
