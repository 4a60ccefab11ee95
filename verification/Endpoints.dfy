/** The daemon's endpoint table: leases on connected providers. */
module EndpointTable {
  import opened Wrappers

  datatype Descriptor = Descriptor(id: string, detail: int)

  /** `serial` tells connected providers apart. */
  datatype Provider = Provider(serial: nat, descriptor: Descriptor)

  datatype Lease = Lease(provider: Provider, permanent: bool, sessions: nat, jobs: nat)

  datatype Table = Table(endpoints: map<string, Lease>, limit: nat)

  function Dynamic(endpoints: map<string, Lease>): set<string> {
    set id | id in endpoints && !endpoints[id].permanent
  }

  predicate Full(t: Table) { |Dynamic(t.endpoints)| >= t.limit }

  datatype Retaining = Retained(next: Table) | Conflict | NotThere(full: bool)

  /** The first look of a retain: join a lease that is there. */
  function RetainPresent(t: Table, d: Descriptor): Retaining {
    if d.id !in t.endpoints then NotThere(Full(t))
    else if t.endpoints[d.id].provider.descriptor != d then Conflict
    else Retained(t.(endpoints := t.endpoints[d.id := t.endpoints[d.id].(jobs := t.endpoints[d.id].jobs + 1)]))
  }

  datatype Registering = Registered(next: Table) | Joined(next: Table) | Rejected

  /** The second look, with a provider connected meanwhile: join a lease that has
      appeared, or register the provider if there is room. */
  function Register(t: Table, p: Provider): Registering {
    match RetainPresent(t, p.descriptor)
    case Retained(next) => Joined(next)
    case Conflict => Rejected
    case NotThere(full) =>
      if full then Rejected else Registered(t.(endpoints := t.endpoints[p.descriptor.id := Lease(p, false, 0, 1)]))
  }

  function Attach(t: Table, p: Provider): Option<Table> {
    if p.descriptor.id in t.endpoints || Full(t) then None
    else Some(t.(endpoints := t.endpoints[p.descriptor.id := Lease(p, false, 1, 0)]))
  }

  function Drop(l: Lease, session: bool): Lease {
    if session then l.(sessions := if l.sessions > 0 then l.sessions - 1 else 0)
    else l.(jobs := if l.jobs > 0 then l.jobs - 1 else 0)
  }

  /** Gives up one hold; the last one takes the lease out and yields the provider
      to close. */
  function Release(t: Table, id: string, session: bool): (Table, Option<Provider>) {
    if id !in t.endpoints || t.endpoints[id].permanent then (t, None)
    else
      var l := Drop(t.endpoints[id], session);
      if l.sessions > 0 || l.jobs > 0 then (t.(endpoints := t.endpoints[id := l]), None)
      else (t.(endpoints := t.endpoints - {id}), Some(l.provider))
  }

  class ProviderSessions {
    var endpoints: map<string, Lease>
    const limit: nat

    ghost function View(): Table
      reads this
    {
      Table(endpoints, limit)
    }

    constructor (base: map<string, Lease>, limit: nat)
      requires forall id | id in base :: base[id].permanent
      ensures View() == Table(base, limit) && Dynamic(endpoints) == {}
    {
      endpoints, this.limit := base, limit;
    }

    method DynamicEndpointCount() returns (count: nat)
      ensures count == |Dynamic(endpoints)|
    {
      count := 0;
      ghost var counted: set<string> := {};
      var rest := endpoints.Keys;
      while rest != {}
        invariant rest <= endpoints.Keys && count == |counted|
        invariant forall id | id in endpoints :: id in counted <==> id !in rest && !endpoints[id].permanent
        invariant counted <= endpoints.Keys
        decreases |rest|
      {
        var id :| id in rest;
        if !endpoints[id].permanent {
          count := count + 1;
          counted := counted + {id};
        }
        rest := rest - {id};
      }
      assert counted == Dynamic(endpoints);
    }

    method RetainIfPresent(d: Descriptor) returns (r: Retaining)
      modifies this
      ensures r == RetainPresent(old(View()), d) && View() == if r.Retained? then r.next else old(View())
    {
      var count := DynamicEndpointCount();
      if d.id !in endpoints { return NotThere(count >= limit); }
      var entry := endpoints[d.id];
      if entry.provider.descriptor != d { return Conflict; }
      endpoints := endpoints[d.id := entry.(jobs := entry.jobs + 1)];
      r := Retained(Table(endpoints, limit));
    }

    method RegisterConnected(p: Provider) returns (r: Registering)
      modifies this
      ensures r == Register(old(View()), p) && View() == if r.Rejected? then old(View()) else r.next
    {
      var id := p.descriptor.id;
      if id in endpoints {
        var current := endpoints[id];
        if current.provider.descriptor != p.descriptor { return Rejected; }
        endpoints := endpoints[id := current.(jobs := current.jobs + 1)];
        return Joined(Table(endpoints, limit));
      }
      var count := DynamicEndpointCount();
      if count >= limit { return Rejected; }
      endpoints := endpoints[id := Lease(p, false, 0, 1)];
      r := Registered(Table(endpoints, limit));
    }

    method AttachSession(p: Provider) returns (ok: bool)
      modifies this
      ensures ok <==> Attach(old(View()), p).Some?
      ensures View() == if ok then Attach(old(View()), p).value else old(View())
    {
      if p.descriptor.id in endpoints { return false; }
      var count := DynamicEndpointCount();
      if count >= limit { return false; }
      endpoints := endpoints[p.descriptor.id := Lease(p, false, 1, 0)];
      ok := true;
    }

    method ReleaseHold(id: string, session: bool) returns (toClose: Option<Provider>)
      modifies this
      ensures (View(), toClose) == Release(old(View()), id, session)
    {
      if id !in endpoints || endpoints[id].permanent { return None; }
      var entry := endpoints[id];
      if session {
        if entry.sessions > 0 { entry := entry.(sessions := entry.sessions - 1); }
      } else if entry.jobs > 0 {
        entry := entry.(jobs := entry.jobs - 1);
      }
      if entry.sessions > 0 || entry.jobs > 0 {
        endpoints := endpoints[id := entry];
        return None;
      }
      endpoints := endpoints - {id};
      toClose := Some(entry.provider);
    }

    /** Retains one endpoint, connecting it if it is not there. `connect` is what
        the connector yields for a descriptor; a provider that is not kept is
        handed back to be closed. */
    method RetainEndpoint(d: Descriptor, connect: Descriptor -> Option<Provider>)
      returns (ok: bool, toClose: seq<Provider>, ghost connected: seq<Provider>)
      modifies this
      ensures ok <==> Reachable(old(View()), d, connect, 0)
      ensures ok ==> SameElsewhere(old(View()), View(), d.id) && SameLease(old(View()), View(), d.id)
      ensures !ok ==> View() == old(View())
      ensures connected == Dialled(old(View()), d, connect, 0)
      ensures toClose == if ok then [] else connected
      ensures Balanced(Providers(old(endpoints)), Providers(endpoints), connected, toClose)
    {
      hide Providers;
      ok, toClose, connected := false, [], [];
      ghost var before := View();
      var first := RetainIfPresent(d);
      if first.Retained? {
        LeaseUpdated(before, View(), d.id);
        return true, [], [];
      }
      if first.Conflict? || first.full { return; }
      var p := connect(d);
      if p.None? { return; }
      toClose, connected := [p.value], [p.value];
      if p.value.descriptor != d { return; }
      var second := RegisterConnected(p.value);
      if second.Registered? {
        LeaseAdded(before, View(), d.id);
        return true, [], connected;
      }
      ok := second.Joined?;
    }

    /** Retains both endpoints of a transfer, each once, or neither. What was
        connected on the way is in the table afterwards or is to be closed. */
    method Acquire(source: Descriptor, destination: Descriptor, connect: Descriptor -> Option<Provider>)
      returns (ok: bool, toClose: seq<Provider>, ghost connected: seq<Provider>)
      requires forall id | id in endpoints && !endpoints[id].permanent ::
        0 < endpoints[id].sessions + endpoints[id].jobs
      modifies this
      ensures ok <==>
        && Reachable(old(View()), source, connect, 0)
        && (destination.id == source.id
            || Reachable(old(View()), destination, connect, if source.id in old(endpoints) then 0 else 1))
      ensures ok ==>
        forall id ::
          JobsOn(View(), id) == JobsOn(old(View()), id) + (if id == source.id || id == destination.id then 1 else 0)
      ensures !ok ==> SameHolds(old(View()), View())
      ensures connected == Dialled(old(View()), source, connect, 0)
        + (if destination.id != source.id && Reachable(old(View()), source, connect, 0)
           then Dialled(old(View()), destination, connect, if source.id in old(endpoints) then 0 else 1) else [])
      ensures Balanced(Providers(old(endpoints)), Providers(endpoints), connected, toClose)
      ensures multiset(toClose) == if ok then multiset{} else multiset(connected)
    {
      hide Balanced, Providers, Release, SameHolds, SameElsewhere, SameLease, Reachable, Dialled, JobsOn;
      ok, toClose := false, [];
      var descriptors := if destination.id != source.id then [source, destination] else [source];
      ghost var before := View();
      var first, p, dialled := RetainEndpoint(descriptors[0], connect);
      toClose, connected := p, dialled;
      if !first {
        SameHoldsRefl(before);
        return;
      }
      ghost var middle := View();
      JobsAfter(before, middle, source.id);
      if |descriptors| == 1 { return true, toClose, connected; }
      SecondRetain(before, middle, source.id, destination, connect);
      var second, q, others := RetainEndpoint(descriptors[1], connect);
      toClose, connected := toClose + q, connected + others;
      if !second {
        Rollback(before, middle, source.id, dialled);
        var r := ReleaseHold(source.id, false);
        if r.Some? { toClose := toClose + [r.value]; }
        GivenBack(Providers(before.endpoints), dialled, others, toClose, r);
        return;
      }
      BothKept(Providers(before.endpoints), Providers(middle.endpoints), Providers(endpoints), dialled, others);
      JobsAfter(middle, View(), destination.id);
      ok := true;
    }
  }

  // ----- Where providers are -----

  /** The providers of all leases, each as often as it has one. */
  ghost function Providers(endpoints: map<string, Lease>): multiset<Provider> {
    if endpoints == map[] then multiset{}
    else
      var id :| id in endpoints;
      multiset{endpoints[id].provider} + Providers(endpoints - {id})
  }

  lemma ProvidersPick(endpoints: map<string, Lease>) returns (x: string)
    requires endpoints != map[]
    ensures x in endpoints && Providers(endpoints) == multiset{endpoints[x].provider} + Providers(endpoints - {x})
  {
    x :| x in endpoints && Providers(endpoints) == multiset{endpoints[x].provider} + Providers(endpoints - {x});
  }

  lemma WithoutBoth(endpoints: map<string, Lease>, a: string, b: string)
    ensures (endpoints - {a}) - {b} == (endpoints - {b}) - {a}
  {
    var s, t := (endpoints - {a}) - {b}, (endpoints - {b}) - {a};
    assert s.Keys == t.Keys;
    assert forall i | i in s :: s[i] == t[i];
  }

  lemma {:induction false} ProvidersWithout(endpoints: map<string, Lease>, id: string)
    requires id in endpoints
    ensures Providers(endpoints) == multiset{endpoints[id].provider} + Providers(endpoints - {id})
    decreases |endpoints|
  {
    hide Providers;
    var x := ProvidersPick(endpoints);
    if x != id {
      ProvidersWithout(endpoints - {x}, id);
      ProvidersWithout(endpoints - {id}, x);
      WithoutBoth(endpoints, x, id);
    }
  }

  /** Leases that differ in one hold count have the same providers. */
  lemma LeaseUpdated(a: Table, b: Table, id: string)
    requires id in a.endpoints && SameElsewhere(a, b, id) && SameLease(a, b, id)
    ensures Providers(b.endpoints) == Providers(a.endpoints)
  {
    hide Providers;
    ProvidersWithout(a.endpoints, id);
    ProvidersWithout(b.endpoints, id);
    assert a.endpoints - {id} == b.endpoints - {id};
  }

  lemma LeaseAdded(a: Table, b: Table, id: string)
    requires id !in a.endpoints && SameElsewhere(a, b, id) && SameLease(a, b, id)
    ensures Providers(b.endpoints) == Providers(a.endpoints) + multiset{b.endpoints[id].provider}
  {
    hide Providers;
    ProvidersWithout(b.endpoints, id);
    assert a.endpoints == b.endpoints - {id};
  }

  /** A release moves the provider of the lease it ends to the ones to close. */
  lemma ReleaseProviders(t: Table, id: string)
    ensures var (r, p) := Release(t, id, false);
      Providers(t.endpoints) == Providers(r.endpoints) + if p.Some? then multiset{p.value} else multiset{}
  {
    hide Providers;
    var (r, p) := Release(t, id, false);
    if id in t.endpoints && !t.endpoints[id].permanent {
      ProvidersWithout(t.endpoints, id);
      if p.None? {
        ProvidersWithout(r.endpoints, id);
        assert r.endpoints - {id} == t.endpoints - {id};
      }
    }
  }

  lemma {:induction false} SameHoldsProviders(a: Table, b: Table)
    requires SameHolds(a, b)
    ensures Providers(a.endpoints) == Providers(b.endpoints)
    decreases |a.endpoints|
  {
    if a.endpoints == map[] {
      assert b.endpoints == map[];
    } else {
      hide Providers;
      var id :| id in a.endpoints;
      var x, y := a.(endpoints := a.endpoints - {id}), b.(endpoints := b.endpoints - {id});
      assert a.endpoints[id].provider == b.endpoints[id].provider && SameHolds(x, y);
      hide SameHolds;
      ProvidersWithout(a.endpoints, id);
      ProvidersWithout(b.endpoints, id);
      SameHoldsProviders(x, y);
    }
  }

  /** Every provider that was in the table or has been connected is in the table or to
      be closed, as often. */
  ghost predicate Balanced(before: multiset<Provider>, after: multiset<Provider>, connected: seq<Provider>,
                           toClose: seq<Provider>)
  {
    after + multiset(toClose) == before + multiset(connected)
  }

  lemma BothKept(a: multiset<Provider>, b: multiset<Provider>, c: multiset<Provider>, first: seq<Provider>,
                 second: seq<Provider>)
    requires Balanced(a, b, first, []) && Balanced(b, c, second, [])
    ensures Balanced(a, c, first + second, [])
  {
    NothingToClose(a, b, first);
    NothingToClose(b, c, second);
    hide Balanced;
    assert c == a + multiset(first + second);
    NothingToClose(a, c, first + second);
  }

  lemma NothingToClose(a: multiset<Provider>, b: multiset<Provider>, connected: seq<Provider>)
    ensures Balanced(a, b, connected, []) <==> b == a + multiset(connected)
  {
    var none: seq<Provider> := [];
    assert b + multiset(none) == b;
  }

  lemma GivenBack(a: multiset<Provider>, first: seq<Provider>, second: seq<Provider>, toClose: seq<Provider>,
                  r: Option<Provider>)
    requires multiset(first) == if r.Some? then multiset{r.value} else multiset{}
    requires toClose == if r.Some? then second + [r.value] else second
    ensures multiset(toClose) == multiset(first + second) && Balanced(a, a, first + second, toClose)
  {
  }

  /** Giving the first hold back restores the table and yields for closing what
      was dialled for it. */
  lemma Rollback(a: Table, b: Table, id: string, dialled: seq<Provider>)
    requires SameElsewhere(a, b, id) && SameLease(a, b, id)
    requires Balanced(Providers(a.endpoints), Providers(b.endpoints), dialled, [])
    requires forall i | i in a.endpoints && !a.endpoints[i].permanent ::
      0 < a.endpoints[i].sessions + a.endpoints[i].jobs
    ensures var (r, p) := Release(b, id, false);
      && SameHolds(a, r) && Providers(r.endpoints) == Providers(a.endpoints)
      && multiset(dialled) == if p.Some? then multiset{p.value} else multiset{}
  {
    hide Providers;
    NothingToClose(Providers(a.endpoints), Providers(b.endpoints), dialled);
    hide Balanced;
    RollbackRestores(a, b, id);
    ReleaseProviders(b, id);
    hide Release, SameElsewhere, SameLease, SameHolds;
    var (r, p) := Release(b, id, false);
    SameHoldsProviders(a, r);
    var closing := if p.Some? then multiset{p.value} else multiset{};
    assert multiset(dialled) == Providers(b.endpoints) - Providers(a.endpoints) == closing;
  }

  /** If the connector yields only new providers, and different ones, then none that
      is to be closed is in the table. */
  lemma ClosedAreGone(before: multiset<Provider>, after: multiset<Provider>, connected: seq<Provider>,
                      toClose: seq<Provider>, p: Provider)
    requires Balanced(before, after, connected, toClose) && multiset(toClose) <= multiset(connected)
    requires p in toClose && p !in before && multiset(connected)[p] == 1
    ensures p !in after && multiset(toClose)[p] == 1
  {
    assert (after + multiset(toClose))[p] == 1;
    assert p in multiset(toClose);
  }

  // ----- What a retain comes to -----

  /** The endpoint is there as described, or there is room for it beside `taken`
      more and the connector yields it as described. */
  ghost predicate Reachable(t: Table, d: Descriptor, connect: Descriptor -> Option<Provider>, taken: nat) {
    if d.id in t.endpoints then t.endpoints[d.id].provider.descriptor == d
    else |Dynamic(t.endpoints)| + taken < t.limit && connect(d).Some? && connect(d).value.descriptor == d
  }

  /** What the connector yields, if it is asked at all. */
  ghost function Dialled(t: Table, d: Descriptor, connect: Descriptor -> Option<Provider>, taken: nat): seq<Provider> {
    if d.id in t.endpoints || |Dynamic(t.endpoints)| + taken >= t.limit || connect(d).None? then []
    else [connect(d).value]
  }

  lemma RoomAfter(a: Table, b: Table, id: string)
    requires SameElsewhere(a, b, id) && SameLease(a, b, id)
    ensures |Dynamic(b.endpoints)| == |Dynamic(a.endpoints)| + if id in a.endpoints then 0 else 1
  {
    if id in a.endpoints {
      assert Dynamic(b.endpoints) == Dynamic(a.endpoints);
    } else {
      assert Dynamic(b.endpoints) == Dynamic(a.endpoints) + {id};
    }
  }

  /** The second endpoint meets the table the call began with, less the place the
      first one took. */
  lemma SecondRetain(a: Table, b: Table, id: string, d: Descriptor, connect: Descriptor -> Option<Provider>)
    requires SameElsewhere(a, b, id) && SameLease(a, b, id) && d.id != id
    ensures var taken := if id in a.endpoints then 0 else 1;
      && (Reachable(b, d, connect, 0) <==> Reachable(a, d, connect, taken))
      && Dialled(b, d, connect, 0) == Dialled(a, d, connect, taken)
  {
    RoomAfter(a, b, id);
    hide Dynamic;
  }

  lemma JobsAfter(a: Table, b: Table, id: string)
    requires SameElsewhere(a, b, id) && SameLease(a, b, id)
    ensures forall i :: JobsOn(b, i) == JobsOn(a, i) + if i == id then 1 else 0
  {
  }

  lemma SameHoldsRefl(a: Table)
    ensures SameHolds(a, a)
  {
  }

  ghost function JobsOn(t: Table, id: string): nat { if id in t.endpoints then t.endpoints[id].jobs else 0 }

  ghost predicate SameElsewhere(a: Table, b: Table, id: string) {
    && b.limit == a.limit
    && forall i | i != id ::
      (i in a.endpoints <==> i in b.endpoints) && (i in a.endpoints ==> b.endpoints[i] == a.endpoints[i])
  }

  /** The lease is the same but for one more job, or new with that job alone. */
  ghost predicate SameLease(a: Table, b: Table, id: string) {
    && id in b.endpoints
    && if id in a.endpoints then b.endpoints[id] == a.endpoints[id].(jobs := a.endpoints[id].jobs + 1)
       else !b.endpoints[id].permanent && b.endpoints[id].sessions == 0 && b.endpoints[id].jobs == 1
  }

  /** The same leases, but for the job counts of permanent ones, which nobody reads. */
  ghost predicate SameHolds(a: Table, b: Table) {
    && a.endpoints.Keys == b.endpoints.Keys
    && forall id | id in a.endpoints ::
      b.endpoints[id] == a.endpoints[id].(jobs := b.endpoints[id].jobs)
        && (b.endpoints[id].jobs == a.endpoints[id].jobs || a.endpoints[id].permanent)
  }

  lemma RollbackRestores(a: Table, b: Table, id: string)
    requires SameElsewhere(a, b, id) && SameLease(a, b, id)
    requires forall i | i in a.endpoints && !a.endpoints[i].permanent ::
      0 < a.endpoints[i].sessions + a.endpoints[i].jobs
    ensures SameHolds(a, Release(b, id, false).0)
  {
    var r := Release(b, id, false).0;
    assert forall i | i != id ::
      (i in a.endpoints <==> i in r.endpoints) && (i in a.endpoints ==> r.endpoints[i] == a.endpoints[i]);
  }
}
