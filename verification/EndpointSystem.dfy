/** Endpoint leases under concurrency: retains that connect outside the lock,
    sessions that attach, release and close, and provider closes that happen after
    the lock is dropped. Each event is one critical section or one outside call;
    events come in any order. */
module EndpointSystem {
  import opened Wrappers
  import opened EndpointTable

  /** A call between its critical sections. */
  datatype Thread =
    | Connecting(wanted: Descriptor)
    | JobHolding(provider: Provider)
    | SessionHolding(session: nat, provider: Provider)

  /** An outstanding hold: a job's, named after the call that took it, or a
      session's. */
  datatype Hold = JobHold(call: nat, id: string) | SessionHold(session: nat, id: string)

  /** `releasing` are session holds given up but not yet taken off the table.
      `closing` and `closes` count close calls decided on and finished. */
  datatype System = System(
    table: Table, threads: map<nat, Thread>, held: set<Hold>, releasing: set<Hold>, closedSessions: set<nat>,
    closing: multiset<nat>, closes: multiset<nat>, next: nat)

  datatype Event =
    | RetainBegin(call: nat, wanted: Descriptor, canConnect: bool)
    | ConnectReturned(call: nat, got: Option<Descriptor>)
    | RetainFinish(call: nat)
    | SessionConnected(call: nat, session: nat, given: Descriptor)
    | SessionAttach(call: nat)
    | SessionRelease(session: nat, id: string)
    | SessionClose(session: nat)
    | FinishRelease(session: nat, id: string)
    | JobRelease(call: nat, id: string)
    | FinishClose(serial: nat)

  ghost function Closing(x: System, p: Provider): System { x.(closing := x.closing + multiset{p.serial}) }

  /** Takes a hold off the table and closes the provider after the last one. */
  ghost function TakeOff(x: System, h: Hold): System {
    var (t, p) := Release(x.table, h.id, h.SessionHold?);
    var y := x.(table := t, held := x.held - {h}, releasing := x.releasing - {h});
    if p.Some? then Closing(y, p.value) else y
  }

  ghost function SessionHolds(x: System, session: nat): set<Hold> {
    set h | h in x.held && h.SessionHold? && h.session == session
  }

  ghost function FinishRetain(x: System, call: nat, p: Provider): System {
    var y := x.(threads := x.threads - {call});
    match Register(x.table, p)
    case Registered(t) => y.(table := t, held := x.held + {JobHold(call, p.descriptor.id)})
    case Joined(t) => Closing(y.(table := t, held := x.held + {JobHold(call, p.descriptor.id)}), p)
    case Rejected => Closing(y, p)
  }

  ghost function FinishAttach(x: System, call: nat, session: nat, p: Provider): System {
    var y := x.(threads := x.threads - {call});
    var r := Attach(x.table, p);
    if session in x.closedSessions || SessionHold(session, p.descriptor.id) in x.held || r.None? then Closing(y, p)
    else y.(table := r.value, held := x.held + {SessionHold(session, p.descriptor.id)})
  }

  /** One event; an event that is not enabled changes nothing. */
  ghost function Step(x: System, e: Event): System {
    match e
    case RetainBegin(call, wanted, canConnect) =>
      if call in x.threads || JobHold(call, wanted.id) in x.held then x
      else (match RetainPresent(x.table, wanted)
        case Retained(t) => x.(table := t, held := x.held + {JobHold(call, wanted.id)})
        case Conflict => x
        case NotThere(full) => if full || !canConnect then x else x.(threads := x.threads[call := Connecting(wanted)]))
    case ConnectReturned(call, got) =>
      if call !in x.threads || !x.threads[call].Connecting? then x
      else if got.None? then x.(threads := x.threads - {call})
      else
        var p := Provider(x.next, got.value);
        var y := x.(next := x.next + 1);
        if got.value != x.threads[call].wanted then Closing(y.(threads := x.threads - {call}), p)
        else y.(threads := x.threads[call := JobHolding(p)])
    case RetainFinish(call) =>
      if call !in x.threads || !x.threads[call].JobHolding?
        || JobHold(call, x.threads[call].provider.descriptor.id) in x.held then x
      else FinishRetain(x, call, x.threads[call].provider)
    case SessionConnected(call, session, got) =>
      if call in x.threads then x
      else x.(threads := x.threads[call := SessionHolding(session, Provider(x.next, got))], next := x.next + 1)
    case SessionAttach(call) =>
      if call !in x.threads || !x.threads[call].SessionHolding? then x
      else FinishAttach(x, call, x.threads[call].session, x.threads[call].provider)
    case SessionRelease(session, id) =>
      if SessionHold(session, id) in x.held then x.(releasing := x.releasing + {SessionHold(session, id)}) else x
    case SessionClose(session) =>
      x.(closedSessions := x.closedSessions + {session}, releasing := x.releasing + SessionHolds(x, session))
    case FinishRelease(session, id) =>
      if SessionHold(session, id) in x.releasing then TakeOff(x, SessionHold(session, id)) else x
    case JobRelease(call, id) =>
      if JobHold(call, id) in x.held then TakeOff(x, JobHold(call, id)) else x
    case FinishClose(n) =>
      if n in x.closing then x.(closing := x.closing - multiset{n}, closes := x.closes + multiset{n}) else x
  }

  ghost function Run(x: System, events: seq<Event>): System
    decreases |events|
  {
    if events == [] then x else Run(Step(x, events[0]), events[1..])
  }

  // ----- Invariant -----

  ghost function JobHolds(held: set<Hold>, id: string): set<Hold> { set h | h in held && h.JobHold? && h.id == id }
  ghost function SessionsOn(held: set<Hold>,
        id: string): set<Hold> { set h | h in held && h.SessionHold? && h.id == id }

  /** A dynamic endpoint is in the table exactly while held, and its counters are
      the outstanding holds. */
  ghost predicate Counted(x: System) {
    && (forall id | id in x.table.endpoints && !x.table.endpoints[id].permanent ::
         && x.table.endpoints[id].sessions == |SessionsOn(x.held, id)|
         && x.table.endpoints[id].jobs == |JobHolds(x.held, id)|
         && 0 < x.table.endpoints[id].sessions + x.table.endpoints[id].jobs)
    && (forall h | h in x.held :: h.id in x.table.endpoints)
  }

  ghost predicate Limited(x: System) { |Dynamic(x.table.endpoints)| <= x.table.limit }

  ghost function InTable(x: System): set<nat> { set id | id in x.table.endpoints ::
    x.table.endpoints[id].provider.serial }

  ghost predicate HasProvider(t: Thread) { !t.Connecting? }

  ghost function InHand(x: System): set<nat> { set c | c in x.threads && HasProvider(x.threads[c]) ::
    x.threads[c].provider.serial }

  /** Every provider ever connected is in the table, in a caller's hands, or has
      been given to exactly one close call: exactly one of these. */
  ghost predicate ClosedOnce(x: System) {
    && (forall a, b | a in x.table.endpoints && b in x.table.endpoints && a != b ::
         x.table.endpoints[a].provider.serial != x.table.endpoints[b].provider.serial)
    && (forall a, b | a in x.threads && b in x.threads && a != b && HasProvider(x.threads[a])
      && HasProvider(x.threads[b]) ::
         x.threads[a].provider.serial != x.threads[b].provider.serial)
    && InTable(x) !! InHand(x)
    && (forall n: nat ::
      x.closing[n] + x.closes[n] == if n < x.next && n !in InTable(x) && n !in InHand(x) then 1 else 0)
    && (forall n | n in InTable(x) :: n < x.next) && (forall n | n in InHand(x) :: n < x.next)
  }

  ghost predicate Named(x: System) {
    && (forall id | id in x.table.endpoints :: x.table.endpoints[id].provider.descriptor.id == id)
    && x.releasing <= x.held && (forall h | h in x.releasing :: h.SessionHold?)
  }

  ghost predicate Inv(x: System) { Counted(x) && Limited(x) && ClosedOnce(x) && Named(x) }

  /** Base endpoints are connected before anything else and stay for good. */
  ghost predicate Initial(x: System) {
    && (forall id | id in x.table.endpoints ::
      x.table.endpoints[id].permanent && x.table.endpoints[id].provider.descriptor.id == id)
    && (forall a, b | a in x.table.endpoints && b in x.table.endpoints && a != b ::
         x.table.endpoints[a].provider.serial != x.table.endpoints[b].provider.serial)
    && (forall n :: n in InTable(x) <==> n < x.next)
    && x == System(x.table, map[], {}, {}, {}, multiset{}, multiset{}, x.next)
  }

  lemma InitialHolds(x: System)
    requires Initial(x)
    ensures Inv(x)
  {
    assert Dynamic(x.table.endpoints) == {};
  }

  // ----- Holds -----

  lemma HoldAdded(held: set<Hold>, h: Hold, id: string)
    requires h !in held
    ensures |JobHolds(held + {h}, id)| == |JobHolds(held, id)| + (if h.JobHold? && h.id == id then 1 else 0)
    ensures |SessionsOn(held + {h}, id)| == |SessionsOn(held, id)| + (if h.SessionHold? && h.id == id then 1 else 0)
  {
    var js, ss := JobHolds(held, id), SessionsOn(held, id);
    assert JobHolds(held + {h}, id) == if h.JobHold? && h.id == id then js + {h} else js;
    assert SessionsOn(held + {h}, id) == if h.SessionHold? && h.id == id then ss + {h} else ss;
  }

  lemma HoldRemoved(held: set<Hold>, h: Hold, id: string)
    requires h in held
    ensures |JobHolds(held - {h}, id)| == |JobHolds(held, id)| - (if h.JobHold? && h.id == id then 1 else 0)
    ensures |SessionsOn(held - {h}, id)| == |SessionsOn(held, id)| - (if h.SessionHold? && h.id == id then 1 else 0)
  {
    HoldAdded(held - {h}, h, id);
    assert held - {h} + {h} == held;
  }

  lemma NoHolds(held: set<Hold>, id: string)
    requires |JobHolds(held, id)| == 0 && |SessionsOn(held, id)| == 0
    ensures forall h | h in held :: h.id != id
  {
    forall h | h in held ensures h.id != id {
      assert h in JobHolds(held, id) || h in SessionsOn(held, id) || h.id != id;
    }
  }

  ghost function Bumped(l: Lease, h: Hold): Lease {
    if h.JobHold? then l.(jobs := l.jobs + 1) else l.(sessions := l.sessions + 1)
  }

  /** A hold on a lease that is there. */
  lemma JoinCounted(x: System, y: System, h: Hold)
    requires Counted(x) && h !in x.held && h.id in x.table.endpoints && y.held == x.held + {h}
    requires y.table.endpoints == x.table.endpoints[h.id := Bumped(x.table.endpoints[h.id], h)]
    ensures Counted(y)
  {
    forall id | id in y.table.endpoints && !y.table.endpoints[id].permanent
      ensures y.table.endpoints[id].sessions == |SessionsOn(y.held, id)|
      ensures y.table.endpoints[id].jobs == |JobHolds(y.held, id)|
        && 0 < y.table.endpoints[id].sessions + y.table.endpoints[id].jobs
    {
      HoldAdded(x.held, h, id);
    }
  }

  /** A hold on a lease that is new. */
  lemma InsertCounted(x: System, y: System, h: Hold, p: Provider)
    requires Counted(x) && h.id !in x.table.endpoints && y.held == x.held + {h}
    requires y.table.endpoints == x.table.endpoints[h.id := Bumped(Lease(p, false, 0, 0), h)]
    ensures Counted(y)
  {
    assert h !in x.held;
    forall id | id in y.table.endpoints && !y.table.endpoints[id].permanent
      ensures y.table.endpoints[id].sessions == |SessionsOn(y.held, id)|
      ensures y.table.endpoints[id].jobs == |JobHolds(y.held, id)|
        && 0 < y.table.endpoints[id].sessions + y.table.endpoints[id].jobs
    {
      HoldAdded(x.held, h, id);
      if id == h.id {
        assert JobHolds(x.held, id) == {} && SessionsOn(x.held, id) == {};
      }
    }
  }

  /** A hold goes, and the lease with it if it was the last. */
  lemma ReleaseCounted(x: System, y: System, h: Hold)
    requires Counted(x) && h in x.held && y.held == x.held - {h}
    requires y.table == Release(x.table, h.id, h.SessionHold?).0
    ensures Counted(y)
  {
    forall id | id in y.table.endpoints && !y.table.endpoints[id].permanent
      ensures y.table.endpoints[id].sessions == |SessionsOn(y.held, id)|
      ensures y.table.endpoints[id].jobs == |JobHolds(y.held, id)|
        && 0 < y.table.endpoints[id].sessions + y.table.endpoints[id].jobs
    {
      HoldRemoved(x.held, h, id);
    }
    HoldRemoved(x.held, h, h.id);
    forall g | g in y.held ensures g.id in y.table.endpoints {
      if h.id !in y.table.endpoints { NoHolds(y.held, h.id); }
    }
  }

  // ----- Providers -----

  /** The providers in the table and in hand stay, bar those that move. */
  lemma SamePlaces(x: System, y: System)
    requires ClosedOnce(x) && y.next == x.next && y.closing == x.closing && y.closes == x.closes
    requires y.threads == x.threads
    requires y.table.endpoints.Keys == x.table.endpoints.Keys
    requires forall id | id in x.table.endpoints :: y.table.endpoints[id].provider == x.table.endpoints[id].provider
    ensures ClosedOnce(y)
  {
    assert InTable(y) == InTable(x) by {
      forall n | n in InTable(x) ensures n in InTable(y) {
        var id :| id in x.table.endpoints && x.table.endpoints[id].provider.serial == n;
        assert y.table.endpoints[id].provider.serial == n;
      }
    }
    assert InHand(y) == InHand(x);
  }

  lemma HandWithout(x: System, y: System, c: nat)
    requires ClosedOnce(x) && c in x.threads && HasProvider(x.threads[c]) && y.threads == x.threads - {c}
    ensures InHand(y) == InHand(x) - {x.threads[c].provider.serial}
  {
    var p := x.threads[c].provider.serial;
    forall n | n in InHand(x) && n != p ensures n in InHand(y) {
      var a :| a in x.threads && HasProvider(x.threads[a]) && x.threads[a].provider.serial == n;
      assert a in y.threads && y.threads[a] == x.threads[a];
    }
    forall n | n in InHand(y) ensures n in InHand(x) && n != p {
      var a :| a in y.threads && HasProvider(y.threads[a]) && y.threads[a].provider.serial == n;
      assert x.threads[a].provider.serial == n;
    }
  }

  /** A caller gives its provider to a close call. */
  lemma HandToClosing(x: System, y: System, c: nat)
    requires ClosedOnce(x) && c in x.threads && HasProvider(x.threads[c]) && y.threads == x.threads - {c}
    requires y.next == x.next && y.table.endpoints == x.table.endpoints && y.closes == x.closes
    requires y.closing == x.closing + multiset{x.threads[c].provider.serial}
    ensures ClosedOnce(y)
  {
    var p := x.threads[c].provider.serial;
    HandWithout(x, y, c);
    assert p in InHand(x);
    assert InTable(y) == InTable(x);
    hide InHand, InTable;
    forall n: nat
      ensures y.closing[n] + y.closes[n] == if n < y.next && n !in InTable(y) && n !in InHand(y) then 1 else 0
    {
      assert y.closing[n] == x.closing[n] + (if n == p then 1 else 0);
    }
  }

  /** A caller's provider enters the table. */
  lemma HandToTable(x: System, y: System, c: nat, id: string)
    requires ClosedOnce(x) && c in x.threads && HasProvider(x.threads[c]) && y.threads == x.threads - {c}
    requires id !in x.table.endpoints
    requires y.next == x.next && y.closes == x.closes && y.closing == x.closing
    requires y.table.endpoints.Keys == x.table.endpoints.Keys + {id}
    requires y.table.endpoints[id].provider == x.threads[c].provider
    requires forall i | i in x.table.endpoints :: y.table.endpoints[i] == x.table.endpoints[i]
    ensures ClosedOnce(y)
  {
    var p := x.threads[c].provider.serial;
    HandWithout(x, y, c);
    assert p in InHand(x);
    assert InTable(y) == InTable(x) + {p} by {
      forall n | n in InTable(x) ensures n in InTable(y) {
        var i :| i in x.table.endpoints && x.table.endpoints[i].provider.serial == n;
        assert y.table.endpoints[i].provider.serial == n;
      }
      assert y.table.endpoints[id].provider.serial in InTable(y);
    }
    assert forall i | i in x.table.endpoints :: x.table.endpoints[i].provider.serial in InTable(x);
    hide InHand, InTable;
    forall n: nat
      ensures y.closing[n] + y.closes[n] == if n < y.next && n !in InTable(y) && n !in InHand(y) then 1 else 0
    {
      if n == p { assert n in InHand(x) && n !in InTable(x); }
    }
  }

  /** The provider of a removed lease goes to a close call. */
  lemma TableToClosing(x: System, y: System, id: string)
    requires ClosedOnce(x) && id in x.table.endpoints && y.table.endpoints == x.table.endpoints - {id}
    requires y.next == x.next && y.threads == x.threads && y.closes == x.closes
    requires y.closing == x.closing + multiset{x.table.endpoints[id].provider.serial}
    ensures ClosedOnce(y)
  {
    var p := x.table.endpoints[id].provider.serial;
    assert p in InTable(x);
    assert InTable(y) == InTable(x) - {p} by {
      forall n | n in InTable(x) && n != p ensures n in InTable(y) {
        var i :| i in x.table.endpoints && x.table.endpoints[i].provider.serial == n;
        assert y.table.endpoints[i].provider.serial == n;
      }
      forall n | n in InTable(y) ensures n in InTable(x) && n != p {
        var i :| i in y.table.endpoints && y.table.endpoints[i].provider.serial == n;
        assert x.table.endpoints[i].provider.serial == n;
      }
    }
    assert InHand(y) == InHand(x);
    hide InHand, InTable;
    forall n: nat
      ensures y.closing[n] + y.closes[n] == if n < y.next && n !in InTable(y) && n !in InHand(y) then 1 else 0
    {
      assert y.closing[n] == x.closing[n] + (if n == p then 1 else 0);
    }
  }

  /** A new provider arrives in a caller's hands. */
  lemma NewInHand(x: System, y: System, c: nat)
    requires ClosedOnce(x) && (c in x.threads ==> !HasProvider(x.threads[c])) && y.table.endpoints == x.table.endpoints
    requires c in y.threads && y.threads == x.threads[c := y.threads[c]] && HasProvider(y.threads[c])
    requires y.threads[c].provider.serial == x.next
    requires y.next == x.next + 1 && y.closes == x.closes && y.closing == x.closing
    ensures ClosedOnce(y)
  {
    assert InHand(y) == InHand(x) + {x.next} by {
      forall n | n in InHand(x) ensures n in InHand(y) {
        var a :| a in x.threads && HasProvider(x.threads[a]) && x.threads[a].provider.serial == n;
        assert y.threads[a].provider.serial == n;
      }
      assert y.threads[c].provider.serial in InHand(y);
    }
    assert InTable(y) == InTable(x);
    assert forall a | a in x.threads && HasProvider(x.threads[a]) :: x.threads[a].provider.serial in InHand(x);
    hide InHand, InTable;
  }

  // ----- Events -----

  lemma DynamicSame(a: map<string, Lease>, b: map<string, Lease>)
    requires a.Keys == b.Keys && forall id | id in a :: a[id].permanent == b[id].permanent
    ensures Dynamic(a) == Dynamic(b)
  {
  }

  lemma DynamicMore(endpoints: map<string, Lease>, id: string, l: Lease)
    requires id !in endpoints && !l.permanent
    ensures |Dynamic(endpoints[id := l])| == |Dynamic(endpoints)| + 1
  {
    assert Dynamic(endpoints[id := l]) == Dynamic(endpoints) + {id};
  }

  lemma DynamicLess(endpoints: map<string, Lease>, id: string)
    ensures |Dynamic(endpoints - {id})| <= |Dynamic(endpoints)|
  {
    if id in Dynamic(endpoints) {
      assert Dynamic(endpoints) == Dynamic(endpoints - {id}) + {id};
    } else {
      assert Dynamic(endpoints - {id}) == Dynamic(endpoints);
    }
  }

  /** Joining a lease that is there. */
  lemma JoinKeeps(x: System, y: System, h: Hold)
    requires Inv(x) && h !in x.held && h.id in x.table.endpoints && y.held == x.held + {h} && y.releasing == x.releasing
    requires y.table == x.table.(endpoints := x.table.endpoints[h.id := Bumped(x.table.endpoints[h.id], h)])
    ensures Counted(y) && Limited(y) && Named(y)
  {
    JoinCounted(x, y, h);
    DynamicSame(x.table.endpoints, y.table.endpoints);
    hide Counted;
  }

  /** Registering a provider from a caller's hands. */
  lemma InsertKeeps(x: System, y: System, h: Hold, c: nat)
    requires Inv(x) && !Full(x.table) && c in x.threads && HasProvider(x.threads[c])
    requires h.id == x.threads[c].provider.descriptor.id
    requires h.id !in x.table.endpoints
    requires y == x.(table := y.table, threads := x.threads - {c}, held := x.held + {h})
    requires y.table
      == x.table.(endpoints := x.table.endpoints[h.id := Bumped(Lease(x.threads[c].provider, false, 0, 0), h)])
    ensures Inv(y)
  {
    InsertCounted(x, y, h, x.threads[c].provider);
    DynamicMore(x.table.endpoints, h.id, y.table.endpoints[h.id]);
    assert Named(y);
    hide Counted, Dynamic, Named;
    HandToTable(x, y, c, h.id);
    hide ClosedOnce;
  }

  lemma RejectKeeps(x: System, y: System, c: nat)
    requires Inv(x) && c in x.threads && HasProvider(x.threads[c])
    requires y == Closing(x.(threads := x.threads - {c}), x.threads[c].provider)
    ensures Inv(y)
  {
    HandToClosing(x, y, c);
    hide ClosedOnce;
  }

  lemma BeginStep(x: System, call: nat, wanted: Descriptor, canConnect: bool)
    requires Inv(x)
    ensures Inv(Step(x, RetainBegin(call, wanted, canConnect)))
  {
    var y := Step(x, RetainBegin(call, wanted, canConnect));
    var h := JobHold(call, wanted.id);
    if call in x.threads || h in x.held { return; }
    var r := RetainPresent(x.table, wanted);
    if r.Retained? {
      JoinKeeps(x, y, h);
      hide Counted, Limited, Named;
      SamePlaces(x, y);
    } else if r.NotThere? && !r.full && canConnect {
      hide Counted, Limited;
      ConnectingKeeps(x, y, call);
    }
  }

  lemma ConnectingKeeps(x: System, y: System, call: nat)
    requires Inv(x) && call !in x.threads
    requires call in y.threads && y == x.(threads := x.threads[call := y.threads[call]]) && y.threads[call].Connecting?
    ensures Inv(y)
  {
    assert InHand(y) == InHand(x) by {
      forall n | n in InHand(x) ensures n in InHand(y) {
        var a :| a in x.threads && HasProvider(x.threads[a]) && x.threads[a].provider.serial == n;
        assert y.threads[a].provider.serial == n;
      }
    }
    assert InTable(y) == InTable(x);
    hide InHand, InTable, Counted, Limited, Named;
    assert Counted(y) && Limited(y) by { CountsOnly(x, y); }
    assert Named(y) by { CountsOnly(x, y); }
  }

  lemma CountsOnly(x: System, y: System)
    requires Counted(x) && Limited(x) && Named(x) && y.table == x.table && y.held == x.held
    requires y.releasing == x.releasing
    ensures Counted(y) && Limited(y) && Named(y)
  {
  }

  lemma ReturnedStep(x: System, call: nat, got: Option<Descriptor>)
    requires Inv(x)
    ensures Inv(Step(x, ConnectReturned(call, got)))
  {
    var y := Step(x, ConnectReturned(call, got));
    if call !in x.threads || !x.threads[call].Connecting? { return; }
    CountsOnly(x, y);
    hide Counted, Limited, Named;
    if got.None? {
      ThreadGone(x, y, call);
    } else if got.value == x.threads[call].wanted {
      NewInHand(x, y, call);
    } else {
      var p := Provider(x.next, got.value);
      var mid := x.(threads := x.threads[call := JobHolding(p)], next := x.next + 1);
      NewInHand(x, mid, call);
      HandToClosing(mid, y, call);
    }
  }

  lemma ThreadGone(x: System, y: System, call: nat)
    requires ClosedOnce(x) && call in x.threads && !HasProvider(x.threads[call])
    requires y == x.(threads := x.threads - {call})
    ensures ClosedOnce(y)
  {
    assert InHand(y) == InHand(x) by {
      forall n | n in InHand(x) ensures n in InHand(y) {
        var a :| a in x.threads && HasProvider(x.threads[a]) && x.threads[a].provider.serial == n;
        assert y.threads[a].provider.serial == n;
      }
    }
    assert InTable(y) == InTable(x);
    hide InHand, InTable;
  }

  lemma FinishStep(x: System, call: nat)
    requires Inv(x)
    ensures Inv(Step(x, RetainFinish(call)))
  {
    var y := Step(x, RetainFinish(call));
    if call !in x.threads || !x.threads[call].JobHolding? { return; }
    var p := x.threads[call].provider;
    var h := JobHold(call, p.descriptor.id);
    if h in x.held { return; }
    var r := Register(x.table, p);
    if r.Registered? {
      hide Inv;
      InsertKeeps(x, y, h, call);
    } else if r.Joined? {
      var mid := x.(table := r.next, held := x.held + {h});
      JoinKeeps(x, mid, h);
      hide Counted, Limited, Named;
      SamePlaces(x, mid);
      hide Inv;
      RejectKeeps(mid, y, call);
    } else {
      hide Inv;
      RejectKeeps(x, y, call);
    }
  }

  lemma SessionConnectedStep(x: System, call: nat, session: nat, given: Descriptor)
    requires Inv(x)
    ensures Inv(Step(x, SessionConnected(call, session, given)))
  {
    var y := Step(x, SessionConnected(call, session, given));
    if call !in x.threads {
      CountsOnly(x, y);
      hide Counted, Limited, Named;
      NewInHand(x, y, call);
    }
  }

  lemma AttachStep(x: System, call: nat)
    requires Inv(x)
    ensures Inv(Step(x, SessionAttach(call)))
  {
    var y := Step(x, SessionAttach(call));
    if call !in x.threads || !x.threads[call].SessionHolding? { return; }
    var t := x.threads[call];
    var h := SessionHold(t.session, t.provider.descriptor.id);
    hide Inv;
    if t.session in x.closedSessions || h in x.held || Attach(x.table, t.provider).None? {
      RejectKeeps(x, y, call);
    } else {
      InsertKeeps(x, y, h, call);
    }
  }

  lemma TakeOffKeeps(x: System, h: Hold)
    requires Inv(x) && h in x.held
    ensures Inv(TakeOff(x, h))
  {
    var y := TakeOff(x, h);
    ReleaseCounted(x, y, h);
    TakeOffNamed(x, h);
    TakeOffPlaces(x, h);
    hide Counted, Named, ClosedOnce;
    if Release(x.table, h.id, h.SessionHold?).1.Some? {
      DynamicLess(x.table.endpoints, h.id);
    } else {
      DynamicSame(x.table.endpoints, y.table.endpoints);
    }
  }

  lemma TakeOffNamed(x: System, h: Hold)
    requires Named(x) && h in x.held
    ensures Named(TakeOff(x, h))
  {
  }

  lemma TakeOffPlaces(x: System, h: Hold)
    requires ClosedOnce(x) && h in x.held
    ensures ClosedOnce(TakeOff(x, h))
  {
    var y := TakeOff(x, h);
    hide ClosedOnce;
    if Release(x.table, h.id, h.SessionHold?).1.Some? {
      TableToClosing(x, y, h.id);
    } else {
      SamePlaces(x, y);
    }
  }

  lemma SessionStep(x: System, e: Event)
    requires Inv(x) && (e.SessionRelease? || e.SessionClose?)
    ensures Inv(Step(x, e))
  {
    var y := Step(x, e);
    assert y.table == x.table && y.held == x.held && y.threads == x.threads && y.next == x.next
      && y.closing == x.closing && y.closes == x.closes;
    SamePlaces(x, y);
    hide ClosedOnce;
  }

  lemma ClosesKept(x: System, y: System)
    requires ClosedOnce(x) && y.threads == x.threads && y.table == x.table && y.next == x.next
    requires forall k: nat :: y.closing[k] + y.closes[k] == x.closing[k] + x.closes[k]
    ensures ClosedOnce(y)
  {
    assert InHand(y) == InHand(x) && InTable(y) == InTable(x);
    hide InHand, InTable;
  }

  lemma CloseStep(x: System, n: nat)
    requires Inv(x)
    ensures Inv(Step(x, FinishClose(n)))
  {
    var y := Step(x, FinishClose(n));
    CountsOnly(x, y);
    hide Counted, Limited, Named, ClosedOnce;
    ClosesKept(x, y);
  }

  lemma StepKeeps(x: System, e: Event)
    requires Inv(x)
    ensures Inv(Step(x, e))
  {
    match e
    case RetainBegin(call, wanted, canConnect) => { hide Inv, Step; BeginStep(x, call, wanted, canConnect); }
    case ConnectReturned(call, got) => { hide Inv, Step; ReturnedStep(x, call, got); }
    case RetainFinish(call) => { hide Inv, Step; FinishStep(x, call); }
    case SessionConnected(call, session, given) => { hide Inv, Step; SessionConnectedStep(x, call, session, given); }
    case SessionAttach(call) => { hide Inv, Step; AttachStep(x, call); }
    case SessionRelease(_, _) => { hide Inv, Step; SessionStep(x, e); }
    case SessionClose(_) => { hide Inv, Step; SessionStep(x, e); }
    case FinishRelease(session, id) =>
      var h := SessionHold(session, id);
      assert h in x.releasing ==> h in x.held;
      hide Inv;
      if h in x.releasing { TakeOffKeeps(x, h); }
    case JobRelease(call, id) =>
      var h := JobHold(call, id);
      hide Inv;
      if h in x.held { TakeOffKeeps(x, h); }
    case FinishClose(n) => { hide Inv, Step; CloseStep(x, n); }
  }

  /** The invariant holds over every run. */
  lemma {:induction false} RunKeeps(x: System, events: seq<Event>)
    requires Inv(x)
    ensures Inv(Run(x, events))
    decreases |events|
  {
    if events != [] {
      StepKeeps(x, events[0]);
      RunKeeps(Step(x, events[0]), events[1..]);
    }
  }

  /** No provider is closed twice, and none while its endpoint is held. */
  lemma NeverClosedWhileHeld(x: System, h: Hold)
    requires Inv(x) && h in x.held
    ensures h.id in x.table.endpoints
    ensures var n := x.table.endpoints[h.id].provider.serial; n !in x.closing && n !in x.closes
    ensures forall n: nat :: x.closes[n] <= 1
  {
    var n := x.table.endpoints[h.id].provider.serial;
    assert n in InTable(x);
    assert x.closing[n] + x.closes[n] == 0;
    forall k: nat ensures x.closes[k] <= 1 { assert x.closing[k] + x.closes[k] <= 1; }
  }

  /** When nobody holds anything and no call is under way, every dynamic endpoint
      is gone and every provider but the base ones has been closed exactly once. */
  lemma QuietMeansClosed(x: System)
    requires Inv(x) && x.held == {} && x.threads == map[] && x.closing == multiset{}
    ensures Dynamic(x.table.endpoints) == {}
    ensures forall n: nat | n < x.next && n !in InTable(x) :: x.closes[n] == 1
  {
    forall id | id in x.table.endpoints ensures x.table.endpoints[id].permanent {
      assert JobHolds(x.held, id) == {} && SessionsOn(x.held, id) == {};
    }
    assert InHand(x) == {};
    forall n: nat | n < x.next && n !in InTable(x) ensures x.closes[n] == 1 {
      assert x.closing[n] + x.closes[n] == 1;
    }
  }

  /** Over every run from a table of base endpoints: every hold is on an endpoint
      whose provider is not closed, no provider is closed twice, the counters of a
      dynamic endpoint are its holds, the dynamic endpoints stay within the limit, and once everything is let go of,
        every
      provider but those in the table has been closed. */
  lemma RunSafe(x: System, events: seq<Event>)
    requires Initial(x)
    ensures var y := Run(x, events);
      && (forall h | h in y.held :: h.id in y.table.endpoints)
      && (forall h | h in y.held && h.id in y.table.endpoints ::
        y.closing[y.table.endpoints[h.id].provider.serial] + y.closes[y.table.endpoints[h.id].provider.serial] == 0)
      && (forall n: nat :: y.closes[n] <= 1)
      && Counted(y) && Limited(y)
      && (y.held == {} && y.threads == map[] && y.closing == multiset{} ==>
           Dynamic(y.table.endpoints) == {} && forall n: nat | n < y.next && n !in InTable(y) :: y.closes[n] == 1)
  {
    InitialHolds(x);
    RunKeeps(x, events);
    var y := Run(x, events);
    hide Run, Initial;
    forall n: nat ensures y.closes[n] <= 1 { assert y.closing[n] + y.closes[n] <= 1; }
    forall h | h in y.held
      ensures h.id in y.table.endpoints
      ensures y.closing[y.table.endpoints[h.id].provider.serial] + y.closes[y.table.endpoints[h.id].provider.serial]
        == 0
    {
      NeverClosedWhileHeld(y, h);
    }
    if y.held == {} && y.threads == map[] && y.closing == multiset{} { QuietMeansClosed(y); }
  }
}
