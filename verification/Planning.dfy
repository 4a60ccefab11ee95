/** The planning loop as the source runs it: clone, compact in place, account,
    accept the first improving trial, replan. */
module CachePlanning {
  import opened Wrappers
  import opened Keyed
  import opened CacheRecords
  import opened CacheLeases
  import opened CacheAccounting
  import opened CacheEviction
  import opened CacheEffects
  import opened CacheCandidates
  import opened CachePlanner
  import opened CacheCompleteness
  import opened CacheDiagnostics

  // ----- In-place compaction -----

  ghost function Kept<T(!new)>(items: seq<T>, keep: T -> bool): seq<T> {
    if items == [] then []
    else
      var rest := Kept(items[..|items| - 1], keep);
      if keep(items[|items| - 1]) then rest + [items[|items| - 1]] else rest
  }

  lemma {:induction false} KeptIsWithout<T(!new)>(items: seq<T>, keep: T -> bool, key: T -> string, id: string)
    requires forall x :: keep(x) <==> key(x) != id
    ensures Kept(items, keep) == Without(items, key, id)
  {
    if items != [] { KeptIsWithout(items[..|items| - 1], keep, key, id); }
  }

  /** The kept records move to the front of the array, in order. */
  method CompactInPlace<T(!new)>(items: array<T>, keep: T -> bool) returns (n: nat)
    modifies items
    ensures n <= items.Length && items[..n] == Kept(old(items[..]), keep)
  {
    n := 0;
    ghost var original := items[..];
    for i := 0 to items.Length
      invariant n <= i && items[..n] == Kept(original[..i], keep)
      invariant items[i..] == original[i..]
    {
      assert original[..i + 1][..i] == original[..i];
      assert items[i] == items[i..][0] == original[i];
      assert items[i + 1..] == items[i..][1..] == original[i + 1..];
      if keep(items[i]) {
        items[n] := items[i];
        n := n + 1;
      }
    }
    assert original[..items.Length] == original;
  }

  /** Clone a table, drop one key from the clone by compaction, and slice it. */
  method DropKey<T(!new)>(items: seq<T>, key: T -> string, id: string) returns (r: seq<T>)
    ensures r == Without(items, key, id)
  {
    var clone := new T[|items|](i requires 0 <= i < |items| => items[i]);
    assert clone[..] == items;
    var keep := (x: T) => key(x) != id;
    var n := CompactInPlace(clone, keep);
    r := clone[..n];
    KeptIsWithout(items, keep, key, id);
  }

  method BlobStillReachable(id: string, entries: seq<Entry>, materializations: seq<Materialization>)
    returns (reachable: bool)
    ensures reachable <==>
      (exists e | e in entries :: e.blobId == id) || (exists m | m in materializations :: m.baselineBlobId == id)
  {
    for i := 0 to |entries|
      invariant forall e | e in entries[..i] :: e.blobId != id
    {
      if entries[i].blobId == id { return true; }
      assert entries[..i + 1] == entries[..i] + [entries[i]];
    }
    assert entries[..|entries|] == entries;
    reachable := BlobReachableFromMaterialization(id, materializations);
  }

  /** Evicts one candidate from a trial snapshot and lists what went. */
  method ApplyCandidate(s: Snapshot, ghost mgr: Option<LeaseManager>, index: ProtectionIndex, t: EvictionTarget)
    returns (trial: Snapshot, targets: seq<EvictionTarget>)
    requires WellLinked(s) && Inspected(index, s, mgr) && Eligible(s, mgr, true, t)
    ensures trial == Evict(s, mgr, t) && targets == Consequences(s, mgr, t)
  {
    targets := [t];
    RemoveAllOne(s, t);
    match t {
      case BlobEviction(id) =>
        var blobs := DropKey(s.blobs, BlobKey, id);
        trial := s.(blobs := blobs);
      case MaterializationEviction(id) =>
        var materializations := DropKey(s.materializations, MaterializationKey, id);
        trial := s.(materializations := materializations);
      case EntryEviction(id) =>
        ghost var e :| e in s.entries && e.id == id && EntryEvictable(s, mgr, true, e);
        EntryConsequences(s, mgr, e);
        InspectedGuards(index, s, mgr);
        var blobId := EntryBlob(s.entries, id);
        assert blobId == Some(e.blobId) by { EntryUnique(s, e); }
        var entries := DropKey(s.entries, EntryKey, id);
        trial := s.(entries := entries);
        if blobId.Some? {
          var reachable := BlobStillReachable(blobId.value, trial.entries, trial.materializations);
          if !reachable && !TargetBlobProtected(index, blobId.value) {
            RemoveAllTwo(s, t, BlobEviction(blobId.value));
            var blobs := DropKey(trial.blobs, BlobKey, blobId.value);
            trial := trial.(blobs := blobs);
            targets := targets + [BlobEviction(blobId.value)];
          }
        }
    }
  }

  // ----- One round -----

  /** Tries candidates in order until one improves a violated limit or the
      budget runs out. */
  method SelectVictim(s: Snapshot, mgr: Option<LeaseManager>, limits: Limits, usage: Usage, index: ProtectionIndex,
                      candidates: seq<Candidate>, considered: nat)
    returns (victim: Option<Candidate>, considered': nat, trial: Snapshot,
      trialUsage: Usage, targets: seq<EvictionTarget>)
    requires Sound(s, mgr) && Countable(s) && usage == UsageOf(s) && Inspected(index, s, mgr)
    requires Sorted(candidates) && forall c :: c in candidates <==> IsCandidate(s, mgr, FitsBytes(s, limits), c)
    requires considered < limits.maxCandidates
    ensures considered <= considered' <= limits.maxCandidates
    ensures victim.Some? ==> considered < considered' && FirstImproving(s, mgr, limits, victim.value)
    ensures victim.Some? ==>
      trial == Evict(s, mgr, victim.value.target) && targets == Consequences(s, mgr, victim.value.target)
    ensures victim.Some? ==> Sound(trial, mgr) && Countable(trial) && trialUsage == UsageOf(trial)
    ensures victim.None? && considered' < limits.maxCandidates ==> Stuck(s, mgr, limits)
  {
    hide *;
    victim, considered', trial, trialUsage, targets := None, considered, s, usage, [];
    for i := 0 to |candidates|
      invariant victim.None? && considered <= considered' <= limits.maxCandidates
      invariant forall j | 0 <= j < i :: !Improves(s, Evict(s, mgr, candidates[j].target), limits)
    {
      if considered' >= limits.maxCandidates { return; }
      considered' := considered' + 1;
      var c := candidates[i];
      CandidateEligible(s, mgr, FitsBytes(s, limits), c);
      SoundLinked(s, mgr);
      trial, targets := ApplyCandidate(s, mgr, index, c.target);
      EvictCountable(s, mgr, c.target);
      var accounted := AccountValidated(trial);
      assert accounted.Ok?;
      UsageMeansImproves(s, trial, limits);
      if ImprovesViolation(usage, accounted.value, limits) {
        FirstInOrder(s, mgr, limits, candidates, i);
        trialUsage := accounted.value;
        victim := Some(c);
        return;
      }
    }
    NoneImproves(s, mgr, limits, candidates);
  }

  lemma EvictCountable(s: Snapshot, mgr: Option<LeaseManager>, t: EvictionTarget)
    requires Sound(s, mgr) && Countable(s) && Eligible(s, mgr, true, t)
    ensures Sound(Evict(s, mgr, t), mgr) && Countable(Evict(s, mgr, t))
    ensures WellLinked(Evict(s, mgr, t)) && GlobalBytes(Evict(s, mgr, t)) <= MAX_INT64
  {
    EvictKeepsSound(s, mgr, t);
    EvictEffect(s, mgr, t);
    SoundCountable(s, Evict(s, mgr, t), mgr);
  }

  lemma FirstInOrder(s: Snapshot, mgr: Option<LeaseManager>, limits: Limits, candidates: seq<Candidate>, i: nat)
    requires i < |candidates| && Sorted(candidates)
    requires forall c :: c in candidates <==> IsCandidate(s, mgr, FitsBytes(s, limits), c)
    requires Improves(s, Evict(s, mgr, candidates[i].target), limits)
    requires forall j | 0 <= j < i :: !Improves(s, Evict(s, mgr, candidates[j].target), limits)
    ensures FirstImproving(s, mgr, limits, candidates[i])
  {
    hide Improves, Evict, IsCandidate, Before;
    var c := candidates[i];
    forall d | IsCandidate(s, mgr, FitsBytes(s, limits), d) && Before(d, c)
      ensures !Improves(s, Evict(s, mgr, d.target), limits)
    {
      var j :| 0 <= j < |candidates| && candidates[j] == d;
      BeforeOrder(c, c, c);
    }
  }

  lemma NoneImproves(s: Snapshot, mgr: Option<LeaseManager>, limits: Limits, candidates: seq<Candidate>)
    requires forall c :: c in candidates <==> IsCandidate(s, mgr, FitsBytes(s, limits), c)
    requires forall j | 0 <= j < |candidates| :: !Improves(s, Evict(s, mgr, candidates[j].target), limits)
    ensures Stuck(s, mgr, limits)
  {
    hide Improves, Evict, IsCandidate, Eligible, FitsBytes;
    forall t | Eligible(s, mgr, FitsBytes(s, limits), t) ensures !Improves(s, Evict(s, mgr, t), limits) {
      CandidateForEligible(s, mgr, FitsBytes(s, limits), t);
      var c :| IsCandidate(s, mgr, FitsBytes(s, limits), c) && c.target == t;
      assert c in candidates;
    }
  }

  // ----- The plan -----

  datatype EvictionPlan = EvictionPlan(
    before: Usage, after: Usage, targets: seq<EvictionTarget>, satisfied: bool,
      considered: nat, diagnostic: QuotaDiagnostic)

  datatype PlanError = InvalidSnapshot | InvalidLimits | LeasesNeedManager | PlanOverflow

  /** What a plan reports, tied to the picks that produced it. */
  ghost predicate Reports(plan: EvictionPlan, s: Snapshot, mgr: Option<LeaseManager>,
        limits: Limits, picks: seq<Candidate>)
    requires Countable(s)
  {
    var r := After(s, mgr, picks);
    && Greedy(s, mgr, limits, picks)
    && Countable(r)
    && plan.before == UsageOf(s)
    && plan.after == UsageOf(r)
    && plan.targets == Listed(s, mgr, picks)
    && (plan.satisfied <==> Fits(r, limits))
    && plan.considered <= limits.maxCandidates
    && (!plan.satisfied && plan.considered < limits.maxCandidates ==> Stuck(r, mgr, limits))
    && (plan.satisfied <==> plan.diagnostic.required == NOTHING)
    && (!plan.satisfied ==>
         && Diagnoses(plan.diagnostic, r, mgr)
         && 0 <= limits.workspaceBytes && (forall w | w in plan.after.workspaces :: 0 <= plan.after.workspaces[w])
         && Lacks(plan.diagnostic.required, plan.after, limits))
  }

  /** Planning refuses exactly malformed input and totals that do not fit, and
      otherwise returns a greedy plan. */
  method PlanEvictions(s: Snapshot, limits: Limits, mgr: Option<LeaseManager>)
    returns (r: Result<EvictionPlan, PlanError>, ghost picks: seq<Candidate>)
    ensures r.Ok? <==>
      ValidSnapshot(s) && ValidLimits(limits) && (s.leases == [] || mgr.Some?) && GlobalBytes(s) <= MAX_INT64
    ensures r.Ok? ==> Countable(s) && Reports(r.value, s, mgr, limits, picks)
  {
    picks := [];
    var valid := Validate(s);
    if !valid { return Err(InvalidSnapshot), picks; }
    if !ValidLimits(limits) { return Err(InvalidLimits), picks; }
    if |s.leases| > 0 && mgr.None? { return Err(LeasesNeedManager), picks; }
    var accounted := AccountValidated(s);
    if accounted.Err? { return Err(PlanOverflow), picks; }
    ValidIsSound(s, mgr);
    var before := accounted.value;
    var working, after, targets, considered, chosen := PlanLoop(s, limits, mgr, before);
    picks := chosen;
    UsageMeansFits(working, limits);
    var satisfied := WithinLimits(after, limits);
    var diagnostic := NO_DIAGNOSTIC;
    if !satisfied {
      var index := InspectProtections(working, mgr);
      diagnostic := BuildDiagnostic(working, after, limits, mgr, index);
    }
    r := Ok(EvictionPlan(before, after, targets, satisfied, considered, diagnostic));
  }

  method PlanLoop(s: Snapshot, limits: Limits, mgr: Option<LeaseManager>, before: Usage)
    returns (working: Snapshot, after: Usage, targets: seq<EvictionTarget>, considered: nat,
      ghost picks: seq<Candidate>)
    requires Sound(s, mgr) && Countable(s) && before == UsageOf(s) && ValidLimits(limits)
    ensures Greedy(s, mgr, limits, picks) && working == After(s, mgr, picks) && targets == Listed(s, mgr, picks)
    ensures Sound(working, mgr) && Countable(working) && after == UsageOf(working)
    ensures considered <= limits.maxCandidates
    ensures !Fits(working, limits) && considered < limits.maxCandidates ==> Stuck(working, mgr, limits)
  {
    assert After(s, mgr, []) == s && Listed(s, mgr, []) == [] && Greedy(s, mgr, limits, []);
    assert 0 < limits.maxCandidates;
    hide *;
    working, after, targets, considered, picks := s, before, [], 0, [];
    UsageMeansFits(working, limits);
    while !WithinLimits(after, limits) && considered < limits.maxCandidates
      invariant Greedy(s, mgr, limits, picks) && working == After(s, mgr, picks) && targets == Listed(s, mgr, picks)
      invariant Sound(working, mgr) && Countable(working) && after == UsageOf(working)
      invariant considered <= limits.maxCandidates
      invariant WithinLimits(after, limits) <==> Fits(working, limits)
      decreases limits.maxCandidates - considered
    {
      SoundLinked(working, mgr);
      UsageMeansFits(working, limits);
      var index := InspectProtections(working, mgr);
      var candidates := EnumerateCandidates(working, mgr, index, WithinByteLimits(after, limits));
      if candidates == [] {
        NoneImproves(working, mgr, limits, candidates);
        break;
      }
      var sorted := SortCandidates(candidates);
      SameMembers(candidates, sorted);
      var victim, considered', trial, trialUsage,
        consequences := SelectVictim(working, mgr, limits, after, index, sorted, considered);
      considered := considered';
      if victim.None? { break; }
      AppendPick(s, mgr, limits, picks, victim.value);
      working, after, targets, picks := trial, trialUsage, targets + consequences, picks + [victim.value];
      UsageMeansFits(working, limits);
    }
  }

  lemma SameMembers(a: seq<Candidate>, b: seq<Candidate>)
    requires multiset(a) == multiset(b)
    ensures forall c :: c in a <==> c in b
  {
    forall c ensures c in a <==> c in b {
      assert c in a <==> c in multiset(a);
      assert c in b <==> c in multiset(b);
    }
  }

  /** Plan refinement, at the level of what is reported: the after-usage is the
      accounting of the snapshot with exactly the listed targets removed, no
      total rises except that a workspace may inherit bytes leaving the shared
      pool, and the plan is satisfied exactly when its deficit is zero. */
  lemma PlanRefines(plan: EvictionPlan, s: Snapshot, mgr: Option<LeaseManager>, limits: Limits, picks: seq<Candidate>)
    requires ValidSnapshot(s) && Countable(s) && Reports(plan, s, mgr, limits, picks)
    ensures Countable(RemoveAll(s, plan.targets)) && plan.after == UsageOf(RemoveAll(s, plan.targets))
    ensures plan.after.bytes <= plan.before.bytes && plan.after.Objects() <= plan.before.Objects()
    ensures forall w ::
      plan.after.WorkspaceBytes(w) <= plan.before.WorkspaceBytes(w) + plan.before.sharedBytes - plan.after.sharedBytes
    ensures plan.satisfied <==> WithinLimits(plan.after, limits)
    ensures plan.satisfied <==> plan.diagnostic.required == NOTHING
  {
    hide WellLinked, GlobalBytes, SharedBytes, WorkspaceBytes, Greedy, Listed, Fits, Stuck, Diagnoses, Lacks,
      ValidSnapshot, Sound;
    ValidIsSound(s, mgr);
    PicksKeep(s, mgr, limits, picks);
    AfterIsRemoval(s, mgr, picks);
    var r := After(s, mgr, picks);
    UsageMeansFits(r, limits);
    forall w ensures plan.after.WorkspaceBytes(w) <= plan.before.WorkspaceBytes(w)
      + plan.before.sharedBytes - plan.after.sharedBytes {
      assert WorkspaceBytes(r, {w}) <= WorkspaceBytes(s, {w}) + SharedBytes(s) - SharedBytes(r);
      UsageWorkspace(s, w);
      UsageWorkspace(r, w);
    }
  }

  lemma UsageWorkspace(s: Snapshot, w: string)
    requires Countable(s)
    ensures UsageOf(s).WorkspaceBytes(w) == WorkspaceBytes(s, {w})
  {
    if w !in WorkspaceIds(s) { AbsentWorkspace(s, w); }
  }

  /** A plan that gave up with budget left and no byte limit broken leaves only
      records it had to keep. */
  lemma UnsatisfiedPlanKeeps(plan: EvictionPlan, s: Snapshot, mgr: Option<LeaseManager>,
        limits: Limits, picks: seq<Candidate>)
    requires ValidSnapshot(s) && Countable(s) && Reports(plan, s, mgr, limits, picks)
    requires !plan.satisfied && plan.considered < limits.maxCandidates && WithinByteLimits(plan.after, limits)
    ensures var r := RemoveAll(s, plan.targets);
      && (forall e | e in r.entries :: EntryKept(r, mgr, e))
      && (forall m | m in r.materializations :: MaterializationKept(r, mgr, m))
  {
    hide WellLinked, Greedy, Listed, Stuck, Diagnoses, Lacks, ValidSnapshot, Sound, EntryKept, MaterializationKept;
    ValidIsSound(s, mgr);
    PicksKeep(s, mgr, limits, picks);
    AfterIsRemoval(s, mgr, picks);
    var r := After(s, mgr, picks);
    UsageMeansFits(r, limits);
    StuckOnObjects(r, mgr, limits);
  }
}
