/** Lease renewal and fail-closed classification. The clock reading is a
    parameter; the process table is a finite map from identities to what the
    operating system says about them. */
module CacheLeases {
  import opened Wrappers
  import opened CacheRecords

  const SECOND: int := 1_000_000_000

  datatype ProcessStatus = Matches | Gone | BirthMismatch | Uncertain
  datatype Protection = ProtectedActive | ProtectedGrace | ProtectedLiveProcess | ProtectedUncertain | Reclaimable

  datatype LeaseManager = LeaseManager(now: Time, processes: Option<map<ProcessIdentity, ProcessStatus>>,
    expiry: int, grace: int)

  datatype LeaseError = InvalidLease | NotActive

  /** What the constructor of a lease manager demands. */
  predicate ValidManager(mgr: LeaseManager) {
    0 < mgr.expiry && 0 <= mgr.grace
  }

  function Min(a: int, b: int): int { if a <= b then a else b }

  function Window(l: Lease): int { l.graceUntil - l.expiresAt }

  function StatusOf(processes: map<ProcessIdentity, ProcessStatus>, p: ProcessIdentity): ProcessStatus {
    if p in processes then processes[p] else Uncertain
  }

  function Heartbeat(mgr: LeaseManager, l: Lease): (r: Result<Lease, LeaseError>) {
    if !ValidLease(l) then Err(InvalidLease)
    else if l.state != Active then Err(NotActive)
    else
      var expires := mgr.now + mgr.expiry;
      Ok(l.(heartbeatAt := mgr.now, expiresAt := expires, graceUntil := expires + Min(Window(l), mgr.grace)))
  }

  function Classify(mgr: LeaseManager, l: Lease): (p: Protection) {
    if l.state == Released then Reclaimable
    else if !ValidLease(l) then ProtectedUncertain
    else if mgr.now < l.expiresAt then ProtectedActive
    else if mgr.now < l.graceUntil then ProtectedGrace
    else if l.process.None? || mgr.processes.None? then ProtectedUncertain
    else
      match StatusOf(mgr.processes.value, l.process.value)
      case Matches => ProtectedLiveProcess
      case Gone => Reclaimable
      case BirthMismatch => Reclaimable
      case Uncertain => ProtectedUncertain
  }

  /** Rounding down to whole seconds, as persisted lease times are. */
  function Truncate(t: Time): Time { t - t % SECOND }

  /** One handoff heartbeat at clock reading `now`: renew, then round the three
      times down for the catalog. */
  function Renew(mgr: LeaseManager, now: Time, l: Lease): (r: Result<Lease, LeaseError>) {
    match Heartbeat(mgr.(now := now), l)
    case Err(e) => Err(e)
    case Ok(h) => Ok(h.(heartbeatAt := Truncate(h.heartbeatAt), expiresAt := Truncate(h.expiresAt),
      graceUntil := Truncate(h.graceUntil)))
  }

  /** A run of heartbeats at the given clock readings, stopping at the first refusal. */
  function RenewAll(mgr: LeaseManager, nows: seq<Time>, l: Lease): (r: Result<Lease, LeaseError>) {
    if nows == [] then Ok(l)
    else
      match RenewAll(mgr, nows[..|nows| - 1], l)
      case Err(e) => Err(e)
      case Ok(mid) => Renew(mgr, nows[|nows| - 1], mid)
  }

  lemma TruncateBounds(t: Time)
    ensures t - SECOND < Truncate(t) <= t
    ensures Truncate(t) % SECOND == 0
  {
    assert t == SECOND * (t / SECOND) + t % SECOND;
  }

  lemma TruncateMonotone(a: Time, b: Time)
    requires a <= b
    ensures Truncate(a) <= Truncate(b)
  {
    TruncateBounds(a);
    TruncateBounds(b);
    var x, y := Truncate(a) / SECOND, Truncate(b) / SECOND;
    assert Truncate(a) == SECOND * x && Truncate(b) == SECOND * y;
  }

  /** Rounding two times down keeps their distance exactly when the distance is
      a whole number of seconds. */
  lemma TruncateDistance(a: Time, d: int)
    requires 0 <= d
    ensures Truncate(a + d) - Truncate(a) == d <==> d % SECOND == 0
    ensures d - SECOND < Truncate(a + d) - Truncate(a) < d + SECOND
  {
    TruncateBounds(a);
    TruncateBounds(a + d);
    var x, y := Truncate(a) / SECOND, Truncate(a + d) / SECOND;
    assert Truncate(a) == SECOND * x && Truncate(a + d) == SECOND * y;
    if d % SECOND == 0 {
      var z := d / SECOND;
      assert d == SECOND * z;
    }
  }

  /** Time ordering survives renewal and rounding: a valid active lease renewed
      at or after the first second is valid and active again, whatever the
      (possibly sub-second) expiry and grace. */
  lemma RenewStaysValid(mgr: LeaseManager, now: Time, l: Lease)
    requires ValidManager(mgr) && ValidLease(l) && l.state == Active && SECOND <= now
    ensures Renew(mgr, now, l).Ok?
    ensures ValidLease(Renew(mgr, now, l).value) && Renew(mgr, now, l).value.state == Active
    ensures Renew(mgr, now, l).value.target == l.target && Renew(mgr, now, l).value.process == l.process
  {
    TruncateBounds(now);
    TruncateMonotone(now, now + mgr.expiry);
    TruncateMonotone(now + mgr.expiry, now + mgr.expiry + Min(Window(l), mgr.grace));
  }

  lemma {:induction false} RunStaysValid(mgr: LeaseManager, nows: seq<Time>, l: Lease)
    requires ValidManager(mgr) && ValidLease(l) && l.state == Active
    requires forall i | 0 <= i < |nows| :: SECOND <= nows[i]
    ensures RenewAll(mgr, nows, l).Ok?
    ensures ValidLease(RenewAll(mgr, nows, l).value) && RenewAll(mgr, nows, l).value.state == Active
    ensures RenewAll(mgr, nows, l).value.target == l.target && RenewAll(mgr, nows, l).value.process == l.process
  {
    if nows != [] {
      var init := nows[..|nows| - 1];
      RunStaysValid(mgr, init, l);
      RenewStaysValid(mgr, nows[|nows| - 1], RenewAll(mgr, init, l).value);
    }
  }

  /** Over any run of heartbeats the grace window is the smaller of its first
      value and the manager's cap, when that smaller value is whole seconds. */
  lemma {:induction false} GraceWindow(mgr: LeaseManager, nows: seq<Time>, l: Lease)
    requires ValidManager(mgr) && ValidLease(l) && l.state == Active && nows != []
    requires forall i | 0 <= i < |nows| :: SECOND <= nows[i]
    requires Min(Window(l), mgr.grace) % SECOND == 0
    ensures RenewAll(mgr, nows, l).Ok?
    ensures Window(RenewAll(mgr, nows, l).value) == Min(Window(l), mgr.grace)
  {
    RunStaysValid(mgr, nows, l);
    var init, now := nows[..|nows| - 1], nows[|nows| - 1];
    RunStaysValid(mgr, init, l);
    var mid := RenewAll(mgr, init, l).value;
    if init == [] {
      assert mid == l;
    } else {
      GraceWindow(mgr, init, l);
    }
    TruncateDistance(now + mgr.expiry, Min(Window(mid), mgr.grace));
  }

  /** The whole-second condition is exact: after one heartbeat the window is that
      smaller value if and only if it is a whole number of seconds. */
  lemma GraceWindowExact(mgr: LeaseManager, now: Time, l: Lease)
    requires ValidManager(mgr) && ValidLease(l) && l.state == Active && SECOND <= now
    ensures Renew(mgr, now, l).Ok?
    ensures Window(Renew(mgr, now, l).value) == Min(Window(l), mgr.grace) <==> Min(Window(l), mgr.grace) % SECOND == 0
  {
    RenewStaysValid(mgr, now, l);
    TruncateDistance(now + mgr.expiry, Min(Window(l), mgr.grace));
  }

  /** A heartbeat protects: until less than a second before the unrounded grace
      end, no process state makes the renewed lease reclaimable. */
  lemma HeartbeatProtects(mgr: LeaseManager, now: Time, l: Lease, later: LeaseManager)
    requires ValidManager(mgr) && ValidLease(l) && l.state == Active && SECOND <= now
    requires later.now <= now + mgr.expiry + Min(Window(l), mgr.grace) - SECOND
    ensures Renew(mgr, now, l).Ok?
    ensures Classify(later, Renew(mgr, now, l).value) in {ProtectedActive, ProtectedGrace}
  {
    RenewStaysValid(mgr, now, l);
    TruncateBounds(now + mgr.expiry + Min(Window(l), mgr.grace));
  }

  predicate Dead(mgr: LeaseManager, l: Lease) {
    && l.process.Some? && mgr.processes.Some? && l.process.value in mgr.processes.value
    && mgr.processes.value[l.process.value] in {Gone, BirthMismatch}
  }

  /** A heartbeat protects by expiry alone for exactly the manager's expiry, by grace
      for exactly the smaller of the lease's window and the manager's cap after that,
      and a lease whose process is dead no longer. */
  lemma HeartbeatExact(mgr: LeaseManager, l: Lease, later: LeaseManager)
    requires ValidManager(mgr) && ValidLease(l) && l.state == Active && SECOND <= mgr.now
    ensures Heartbeat(mgr, l).Ok?
    ensures var h, end := Heartbeat(mgr, l).value, mgr.now + mgr.expiry;
      && h.heartbeatAt == mgr.now && h == l.(heartbeatAt := h.heartbeatAt, expiresAt := h.expiresAt,
           graceUntil := h.graceUntil)
      && (Classify(later, h) == ProtectedActive <==> later.now < end)
      && (Classify(later, h) == ProtectedGrace <==> end <= later.now < end + Min(Window(l), mgr.grace))
      && (Classify(later, h) == Reclaimable <==> end + Min(Window(l), mgr.grace) <= later.now && Dead(later, l))
  {
  }

  /** Rounding never protects for longer: a renewed lease whose process is dead is
      reclaimable from the end of expiry and grace on, and is protected by expiry
      alone until the second that expiry falls in. */
  lemma RenewedEnds(mgr: LeaseManager, now: Time, l: Lease, later: LeaseManager)
    requires ValidManager(mgr) && ValidLease(l) && l.state == Active && SECOND <= now
    ensures Renew(mgr, now, l).Ok?
    ensures now + mgr.expiry + mgr.grace <= later.now && Dead(later, l) ==>
      Classify(later, Renew(mgr, now, l).value) == Reclaimable
    ensures Classify(later, Renew(mgr, now, l).value) == ProtectedActive <==> later.now < Truncate(now + mgr.expiry)
    ensures later.now <= now + mgr.expiry - SECOND ==> Classify(later, Renew(mgr, now, l).value) == ProtectedActive
  {
    RenewStaysValid(mgr, now, l);
    TruncateBounds(now + mgr.expiry);
    TruncateBounds(now + mgr.expiry + Min(Window(l), mgr.grace));
  }

  /** Classification fails closed: over any run of heartbeats the lease becomes
      reclaimable exactly when the last one is past grace and the process table
      positively reports its process gone or reborn. */
  lemma ReclaimableAfterRun(mgr: LeaseManager, nows: seq<Time>, l: Lease, later: LeaseManager)
    requires ValidManager(mgr) && ValidLease(l) && l.state == Active
    requires forall i | 0 <= i < |nows| :: SECOND <= nows[i]
    ensures RenewAll(mgr, nows, l).Ok?
    ensures var last := RenewAll(mgr, nows, l).value;
      Classify(later, last) == Reclaimable <==>
        last.graceUntil <= later.now && Dead(later, l)
  {
    RunStaysValid(mgr, nows, l);
  }
}
