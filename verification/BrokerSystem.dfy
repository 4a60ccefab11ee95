/** The broker with everything around it that runs concurrently: prompts waiting
    on their one-slot result channels, sends under way outside the lock, and
    claims waiting for a notification. Each event is atomic and events come in
    any order. */
module AuthSystem {
  import opened Wrappers
  import opened AuthBroker
  import opened AuthBrokerInvariant

  /** A running prompt call, after it opened its challenge. */
  datatype Prompter = Prompter(id: string, givingUp: bool)

  /** A claim blocked on the notification channel of a generation. */
  datatype Waiter = Waiter(owner: nat, generation: nat)

  /** Results are counted by the serial of their challenge: on their way to the
      channel, in it, or taken out. `removed` counts removals from the table. */
  datatype System = System(
    tables: State, prompters: map<nat, Prompter>, waiting: map<nat, Waiter>,
    sending: multiset<nat>, buffered: multiset<nat>, received: multiset<nat>, removed: multiset<nat>)

  datatype Event =
    | BeginAttempt(token: string, endpoint: string, deadline: int)
    | OpenPrompt(token: string, expired: bool, id: string, prompt: string, kind: PromptKind)
    | TryClaim(waiter: nat, owner: nat)
    | Wake(waiter: nat)
    | LeaveClaim(waiter: nat)
    | ResolveEvent(owner: nat, id: string, cancel: bool, answer: string)
    | Deliver(serial: nat)
    | Receive(serial: nat)
    | GiveUp(serial: nat)
    | AbandonEvent(serial: nat)
    | DetachEvent(owner: nat)
    | CloseEvent(token: string)

  ghost function LiveSerials(s: State): set<nat> { Serials(s.challenges, s.challenges.Keys) }

  /** One event; an event that is not enabled changes nothing. */
  ghost function Step(x: System, e: Event): System {
    var s := x.tables;
    match e
    case BeginAttempt(token, endpoint, deadline) =>
      var r := Begin(s, token, endpoint, deadline);
      if r.None? then x else x.(tables := r.value)
    case OpenPrompt(token, expired, id, prompt, kind) =>
      var r := Open(s, token, expired, id, prompt, kind);
      if r.OpenFailed? then x else x.(tables := r.next, prompters := x.prompters[s.nextSerial := Prompter(id, false)])
    case TryClaim(w, owner) =>
      if owner == 0 then x
      else (match Claim(s, owner)
        case Holding(_) => x.(waiting := x.waiting - {w})
        case Took(_, next) => x.(tables := next, waiting := x.waiting - {w})
        case MustWait => x.(waiting := x.waiting[w := Waiter(owner, s.generation)]))
    case Wake(w) => if w in x.waiting && x.waiting[w].generation < s.generation then x.(waiting := x.waiting - {w})
      else x
    case LeaveClaim(w) => x.(waiting := x.waiting - {w})
    case ResolveEvent(owner, id, cancel, answer) =>
      var r := Resolve(s, owner, id, cancel, answer);
      if r.ResolveFailed? then x
      else x.(tables := r.next, sending := x.sending + multiset{r.serial}, removed := x.removed + multiset{r.serial})
    case Deliver(n) =>
      if n in x.sending && n !in x.buffered
        then x.(sending := x.sending - multiset{n}, buffered := x.buffered + multiset{n}) else x
    case Receive(n) =>
      if n in x.prompters && !x.prompters[n].givingUp && n in x.buffered then
        x.(buffered := x.buffered - multiset{n}, received := x.received + multiset{n}, prompters := x.prompters - {n})
      else x
    case GiveUp(n) => if n in x.prompters then x.(prompters := x.prompters[n := x.prompters[n].(givingUp := true)])
      else x
    case AbandonEvent(n) =>
      if n in x.prompters && x.prompters[n].givingUp then
        var id := x.prompters[n].id;
        var gone := if id in s.challenges then multiset{s.challenges[id].serial} else multiset{};
        x.(tables := Abandon(s, id), prompters := x.prompters - {n}, removed := x.removed + gone)
      else x
    case DetachEvent(owner) => x.(tables := Detach(s, owner))
    case CloseEvent(token) =>
      if token !in s.attempts then x
      else
        var gone := multiset(Serials(s.challenges, OfAttempt(s.challenges, token)));
        x.(tables := Close(s, token), sending := x.sending + gone, removed := x.removed + gone)
  }

  ghost function Run(x: System, events: seq<Event>): System
    decreases |events|
  {
    if events == [] then x else Run(Step(x, events[0]), events[1..])
  }

  ghost function Start(maxPrompts: nat): System {
    System(State(maxPrompts, map[], map[], [], 0, 0), map[], map[], multiset{}, multiset{}, multiset{}, multiset{})
  }

  // ----- Invariant -----

  /** Every challenge ever created is live or was removed exactly once. */
  ghost predicate RemovedOnce(x: System) {
    forall n: nat :: x.removed[n] == if n < x.tables.nextSerial && n !in LiveSerials(x.tables) then 1 else 0
  }

  /** A challenge has at most one result, and only once it is removed. */
  ghost predicate OneResult(x: System) {
    forall n: nat :: x.sending[n] + x.buffered[n] + x.received[n] <= x.removed[n]
  }

  ghost predicate NothingFor(s: State, owner: nat) {
    forall id | id in s.challenges :: s.challenges[id].owner != 0 && s.challenges[id].owner != owner
  }

  /** Whoever waits on the current generation has nothing to claim. */
  ghost predicate NoLostWakeups(x: System) {
    forall w | w in x.waiting ::
      && x.waiting[w].owner != 0 && x.waiting[w].generation <= x.tables.generation
      && (x.waiting[w].generation == x.tables.generation ==> NothingFor(x.tables, x.waiting[w].owner))
  }

  /** A live challenge's prompt is still running under the same identifier. */
  ghost predicate Attended(x: System) {
    && (forall id | id in x.tables.challenges ::
         x.tables.challenges[id].serial in x.prompters && x.prompters[x.tables.challenges[id].serial].id == id)
    && (forall n | n in x.prompters :: n < x.tables.nextSerial)
  }

  ghost predicate Inv(x: System) {
    Valid(x.tables) && RemovedOnce(x) && OneResult(x) && NoLostWakeups(x) && Attended(x)
  }

  lemma StartHolds(maxPrompts: nat)
    ensures Inv(Start(maxPrompts))
  {
  }

  /** A send into a result channel never blocks: its slot is free. */
  lemma SendNeverBlocks(x: System, n: nat)
    requires Inv(x) && n in x.sending
    ensures n !in x.buffered && n !in x.received && x.sending[n] == 1
    ensures Step(x, Deliver(n)) == x.(sending := x.sending - multiset{n}, buffered := x.buffered + multiset{n})
  {
    assert x.sending[n] + x.buffered[n] + x.received[n] <= x.removed[n] <= 1;
  }

  lemma SerialsDistinct(s: State, a: string, b: string)
    requires Ordered(s.order, s.challenges) && a in s.challenges && b in s.challenges && a != b
    ensures s.challenges[a].serial != s.challenges[b].serial
  {
    assert a in Ids(s.order) && b in Ids(s.order);
    var i :| 0 <= i < |s.order| && s.order[i] == a;
    var j :| 0 <= j < |s.order| && s.order[j] == b;
  }

  /** Removing challenges from a valid table takes their serials out of it. */
  lemma SerialsWithout(s: State, dropped: set<string>)
    requires Ordered(s.order, s.challenges) && dropped <= s.challenges.Keys
    ensures var rest := s.challenges - dropped;
      Serials(rest, rest.Keys) == Serials(s.challenges, s.challenges.Keys) - Serials(s.challenges, dropped)
  {
    var rest := s.challenges - dropped;
    forall a | a in rest ensures s.challenges[a].serial !in Serials(s.challenges, dropped) {
      forall b | b in dropped ensures s.challenges[a].serial != s.challenges[b].serial { SerialsDistinct(s, a, b); }
    }
    forall n | n in Serials(s.challenges, s.challenges.Keys) - Serials(s.challenges, dropped)
      ensures n in Serials(rest, rest.Keys)
    {
      var id :| id in s.challenges && s.challenges[id].serial == n;
      assert id in rest;
    }
  }

  /** The common effect of resolve, close and abandon. */
  ghost predicate Removes(x: System, y: System, dropped: set<string>) {
    && dropped <= x.tables.challenges.Keys
    && y.tables.challenges == x.tables.challenges - dropped
    && y.tables.nextSerial == x.tables.nextSerial
    && y.removed == x.removed + multiset(Serials(x.tables.challenges, dropped))
  }

  lemma RemovesOnce(x: System, y: System, dropped: set<string>)
    requires Valid(x.tables) && RemovedOnce(x) && Removes(x, y, dropped)
    ensures RemovedOnce(y)
  {
    SerialsWithout(x.tables, dropped);
    var gone := Serials(x.tables.challenges, dropped);
    forall n: nat ensures y.removed[n] == if n < y.tables.nextSerial && n !in LiveSerials(y.tables) then 1 else 0 {
      assert y.removed[n] == x.removed[n] + (if n in gone then 1 else 0);
      if n in gone {
        var id :| id in dropped && x.tables.challenges[id].serial == n;
        assert n in LiveSerials(x.tables) && n < x.tables.nextSerial;
      }
    }
  }

  /** Waiters stay right when the generation moves on or challenges only leave. */
  lemma WaitersKept(x: System, y: System)
    requires NoLostWakeups(x) && y.waiting == x.waiting
    requires x.tables.generation < y.tables.generation || y.tables == x.tables
    ensures NoLostWakeups(y)
  {
  }

  lemma BeginStep(x: System, e: Event)
    requires Inv(x) && e.BeginAttempt?
    ensures Inv(Step(x, e))
  {
    if Begin(x.tables, e.token, e.endpoint, e.deadline).Some? {
      BeginKeeps(x.tables, e.token, e.endpoint, e.deadline);
      hide Valid;
      WaitersKept(x, Step(x, e));
    }
  }

  lemma OpenStep(x: System, e: Event)
    requires Inv(x) && e.OpenPrompt?
    ensures Inv(Step(x, e))
  {
    var r := Open(x.tables, e.token, e.expired, e.id, e.prompt, e.kind);
    if r.Opened? {
      var y := Step(x, e);
      OpenKeeps(x.tables, e.token, e.expired, e.id, e.prompt, e.kind);
      assert y.tables.generation == x.tables.generation + 1 && y.waiting == x.waiting;
      hide RemovedOnce, OneResult, NoLostWakeups;
      OpenAttended(x, y, e.id);
      hide Valid, Attended;
      OpenSerials(x, y, e.id);
      WaitersKept(x, y);
    }
  }

  lemma OpenAttended(x: System, y: System, id: string)
    requires Attended(x) && Linked(x.tables) && id !in x.tables.challenges
    requires y.tables.challenges.Keys == x.tables.challenges.Keys + {id}
    requires forall i | i in x.tables.challenges :: y.tables.challenges[i] == x.tables.challenges[i]
    requires y.tables.challenges[id].serial == x.tables.nextSerial && y.tables.nextSerial == x.tables.nextSerial + 1
    requires y.prompters == x.prompters[x.tables.nextSerial := Prompter(id, false)]
    ensures Attended(y)
  {
  }

  lemma OpenSerials(x: System, y: System, id: string)
    requires RemovedOnce(x) && OneResult(x) && id !in x.tables.challenges
    requires y.tables.challenges.Keys == x.tables.challenges.Keys + {id}
    requires forall i | i in x.tables.challenges :: y.tables.challenges[i] == x.tables.challenges[i]
    requires y.tables.challenges[id].serial == x.tables.nextSerial && y.tables.nextSerial == x.tables.nextSerial + 1
    requires y.removed == x.removed && y.sending == x.sending && y.buffered == x.buffered && y.received == x.received
    ensures RemovedOnce(y) && OneResult(y)
  {
    assert LiveSerials(y.tables) == LiveSerials(x.tables) + {x.tables.nextSerial} by {
      forall n | n in LiveSerials(x.tables) ensures n in LiveSerials(y.tables) {
        var i :| i in x.tables.challenges && x.tables.challenges[i].serial == n;
        assert y.tables.challenges[i].serial == n;
      }
      assert y.tables.challenges[id].serial in LiveSerials(y.tables);
    }
  }

  /** Owners may change, nothing else. */
  lemma OwnersStep(x: System, y: System)
    requires RemovedOnce(x) && OneResult(x) && Attended(x) && OnlyOwners(x.tables, y.tables)
    requires y == x.(tables := y.tables, waiting := y.waiting)
    ensures RemovedOnce(y) && OneResult(y) && Attended(y)
  {
    assert LiveSerials(y.tables) == LiveSerials(x.tables) by {
      forall n | n in LiveSerials(x.tables) ensures n in LiveSerials(y.tables) {
        var i :| i in x.tables.challenges && x.tables.challenges[i].serial == n;
        assert y.tables.challenges[i].serial == n;
      }
    }
  }

  lemma ClaimStep(x: System, w: nat, owner: nat)
    requires Inv(x)
    ensures Inv(Step(x, TryClaim(w, owner)))
  {
    var y := Step(x, TryClaim(w, owner));
    if owner != 0 {
      if Claim(x.tables, owner).Took? {
        TookStep(x, y, owner);
      } else {
        if Claim(x.tables, owner).MustWait? { NothingToClaim(x.tables, owner); }
        hide Valid, Claim;
        OwnersStep(x, y);
      }
    }
  }

  /** Taking a challenge leaves nobody waiting on the current generation behind:
      an unowned challenge means nobody waits on it. */
  lemma TookStep(x: System, y: System, owner: nat)
    requires Inv(x) && owner != 0 && Claim(x.tables, owner).Took?
    requires y == x.(tables := Claim(x.tables, owner).next, waiting := y.waiting)
    requires (forall w | w in y.waiting :: w in x.waiting && y.waiting[w] == x.waiting[w])
    ensures Inv(y)
  {
    var id := Claim(x.tables, owner).takenId;
    ClaimKeeps(x.tables, owner);
    assert OnlyOwners(x.tables, y.tables) && y.tables.generation == x.tables.generation;
    assert id in x.tables.challenges && x.tables.challenges[id].owner == 0;
    hide Valid, Claim;
    OwnersStep(x, y);
    hide RemovedOnce, OneResult, Attended, OnlyOwners;
    assert forall w | w in x.waiting :: x.waiting[w].generation != x.tables.generation;
  }

  lemma NothingToClaim(s: State, owner: nat)
    requires Valid(s) && owner != 0 && Claim(s, owner).MustWait?
    ensures NothingFor(s, owner)
  {
    forall id | id in s.challenges ensures s.challenges[id].owner != 0 && s.challenges[id].owner != owner {
      assert id in Ids(s.order);
      assert id !in HeldBy(s.challenges, owner);
    }
  }

  lemma DetachStep(x: System, e: Event)
    requires Inv(x) && e.DetachEvent?
    ensures Inv(Step(x, e))
  {
    var y := Step(x, e);
    DetachKeeps(x.tables, e.owner);
    DetachKeepsPlaces(x.tables, e.owner);
    hide Valid;
    OwnersStep(x, y);
    WaitersKept(x, y);
  }

  lemma DeleteRemoves(x: System, y: System, id: string)
    requires id in x.tables.challenges && y.tables == Notify(Delete(x.tables, id))
    requires y.removed == x.removed + multiset{x.tables.challenges[id].serial}
    ensures Removes(x, y, {id})
  {
    assert Serials(x.tables.challenges, {id}) == {x.tables.challenges[id].serial};
  }

  lemma ResolveStep(x: System, e: Event)
    requires Inv(x) && e.ResolveEvent?
    ensures Inv(Step(x, e))
  {
    hide Valid, RemovedOnce, NoLostWakeups, Serials, RemoveFirst;
    var y := Step(x, e);
    var r := Resolve(x.tables, e.owner, e.id, e.cancel, e.answer);
    if r.Resolved? {
      var serial := x.tables.challenges[e.id].serial;
      assert y == x.(tables := Notify(Delete(x.tables, e.id)), sending := x.sending + multiset{serial},
                     removed := x.removed + multiset{serial});
      hide Step, Resolve;
      DeleteKeeps(x.tables, e.id);
      NotifyKeeps(Delete(x.tables, e.id));
      DeleteRemoves(x, y, e.id);
      RemovesOnce(x, y, {e.id});
      WaitersKept(x, y);
      ResolvedOnce(x, y, serial);
    }
  }

  lemma ResolvedOnce(x: System, y: System, serial: nat)
    requires OneResult(x) && y.buffered == x.buffered && y.received == x.received
    requires y.sending == x.sending + multiset{serial} && y.removed == x.removed + multiset{serial}
    ensures OneResult(y)
  {
    forall n: nat ensures y.sending[n] + y.buffered[n] + y.received[n] <= y.removed[n] {
      assert x.sending[n] + x.buffered[n] + x.received[n] <= x.removed[n];
    }
  }

  lemma CloseStep(x: System, e: Event)
    requires Inv(x) && e.CloseEvent?
    ensures Inv(Step(x, e))
  {
    var y := Step(x, e);
    if e.token in x.tables.attempts {
      CloseKeeps(x.tables, e.token);
      RemovesOnce(x, y, OfAttempt(x.tables.challenges, e.token));
      hide Valid, RemovedOnce;
      WaitersKept(x, y);
    }
  }

  lemma AbandonStep(x: System, n: nat)
    requires Inv(x)
    ensures Inv(Step(x, AbandonEvent(n)))
  {
    if n !in x.prompters || !x.prompters[n].givingUp { return; }
    var id := x.prompters[n].id;
    var y := Step(x, AbandonEvent(n));
    assert y.tables == Abandon(x.tables, id) && y.prompters == x.prompters - {n};
    assert y == x.(tables := y.tables, prompters := y.prompters, removed := y.removed);
    assert id in x.tables.challenges ==> y.removed == x.removed + multiset{x.tables.challenges[id].serial};
    assert id !in x.tables.challenges ==> y.removed == x.removed;
    hide Step;
    AbandonAttended(x, y, n);
    hide Attended;
    if id in x.tables.challenges {
      DeleteKeeps(x.tables, id);
      NotifyKeeps(Delete(x.tables, id));
      DeleteRemoves(x, y, id);
      RemovesOnce(x, y, {id});
      hide Valid, RemovedOnce;
      WaitersKept(x, y);
    } else {
      assert y.tables == x.tables;
    }
  }

  lemma AbandonAttended(x: System, y: System, n: nat)
    requires Attended(x) && n in x.prompters && y.prompters == x.prompters - {n}
    requires y.tables.nextSerial == x.tables.nextSerial
    requires forall i | i in y.tables.challenges ::
      i != x.prompters[n].id && i in x.tables.challenges && y.tables.challenges[i] == x.tables.challenges[i]
    ensures Attended(y)
  {
  }

  /** Delivering, receiving and giving up leave the tables alone. */
  lemma ThreadStep(x: System, y: System)
    requires Inv(x) && y.tables == x.tables && y.removed == x.removed && y.waiting == x.waiting
    requires forall n: nat ::
      y.sending[n] + y.buffered[n] + y.received[n] == x.sending[n] + x.buffered[n] + x.received[n]
    requires forall n | n in y.prompters :: n in x.prompters && y.prompters[n].id == x.prompters[n].id
    requires forall n | n in LiveSerials(x.tables) && n in x.prompters :: n in y.prompters
    ensures Inv(y)
  {
    assert forall id | id in x.tables.challenges :: x.tables.challenges[id].serial in LiveSerials(x.tables);
  }

  lemma ReceiveStep(x: System, n: nat)
    requires Inv(x)
    ensures Inv(Step(x, Receive(n)))
  {
    if n in x.prompters && !x.prompters[n].givingUp && n in x.buffered {
      assert x.sending[n] + x.buffered[n] + x.received[n] <= x.removed[n];
      assert n !in LiveSerials(x.tables);
      hide Inv;
      ThreadStep(x, Step(x, Receive(n)));
    }
  }

  lemma DeliverStep(x: System, n: nat)
    requires Inv(x)
    ensures Inv(Step(x, Deliver(n)))
  {
    hide Inv;
    ThreadStep(x, Step(x, Deliver(n)));
  }

  lemma GiveUpStep(x: System, n: nat)
    requires Inv(x)
    ensures Inv(Step(x, GiveUp(n)))
  {
    hide Inv;
    ThreadStep(x, Step(x, GiveUp(n)));
  }

  lemma LeaveStep(x: System, e: Event)
    requires Inv(x) && (e.Wake? || e.LeaveClaim?)
    ensures Inv(Step(x, e))
  {
    hide Valid, LiveSerials;
  }

  /** Every event keeps the invariant. */
  lemma StepKeeps(x: System, e: Event)
    requires Inv(x)
    ensures Inv(Step(x, e))
  {
    hide Inv, Step;
    match e
    case BeginAttempt(_, _, _) => BeginStep(x, e);
    case OpenPrompt(_, _, _, _, _) => OpenStep(x, e);
    case TryClaim(w, owner) => ClaimStep(x, w, owner);
    case Wake(_) => LeaveStep(x, e);
    case LeaveClaim(_) => LeaveStep(x, e);
    case ResolveEvent(_, _, _, _) => ResolveStep(x, e);
    case Deliver(n) => DeliverStep(x, n);
    case Receive(n) => ReceiveStep(x, n);
    case GiveUp(n) => GiveUpStep(x, n);
    case AbandonEvent(n) => AbandonStep(x, n);
    case DetachEvent(_) => DetachStep(x, e);
    case CloseEvent(_) => CloseStep(x, e);
  }

  /** The invariant holds over every run. */
  lemma {:induction false} RunKeeps(x: System, events: seq<Event>)
    requires Inv(x)
    ensures Inv(Run(x, events))
    decreases |events|
  {
    if events != [] {
      StepKeeps(x, events[0]);
      RunKeeps(Step(x, events[0]), events[1..]);
    }
  }

  /** The promises of the invariant, read off: whoever waits on the current
      notification finds nothing to claim, no challenge is removed twice, none
      gets two results, and each attempt stays within its prompts. */
  lemma RunSafe(maxPrompts: nat, events: seq<Event>)
    ensures var x := Run(Start(maxPrompts), events);
      && (forall w | w in x.waiting && x.waiting[w].generation == x.tables.generation ::
        NothingFor(x.tables, x.waiting[w].owner))
      && (forall n: nat :: x.removed[n] <= 1 && x.sending[n] + x.buffered[n] + x.received[n] <= 1)
      && (forall t | t in x.tables.attempts :: |OfAttempt(x.tables.challenges, t)| <= x.tables.maxPrompts)
      && Ordered(x.tables.order, x.tables.challenges) && OneEach(x.tables.challenges) && Linked(x.tables)
  {
    StartHolds(maxPrompts);
    RunKeeps(Start(maxPrompts), events);
    var x := Run(Start(maxPrompts), events);
    assert forall n: nat :: x.sending[n] + x.buffered[n] + x.received[n] <= x.removed[n] <= 1;
    hide Run, Start, OneResult, RemovedOnce, Ordered, OneEach, Linked;
  }

  // ----- Prompts and identifier reuse -----

  ghost function RunningIds(x: System): set<string> { set n | n in x.prompters :: x.prompters[n].id }

  /** A waiting prompt's challenge is live, or its result is on the way. */
  ghost predicate Served(x: System) {
    forall n | n in x.prompters && !x.prompters[n].givingUp ::
      n in x.sending || n in x.buffered || LiveAs(x.tables, x.prompters[n].id, n)
  }

  ghost predicate LiveAs(s: State, id: string, n: nat) { id in s.challenges && s.challenges[id].serial == n }

  /** No two running prompts share an identifier. */
  ghost predicate NoTwins(x: System) {
    forall m, n | m in x.prompters && n in x.prompters && m != n :: x.prompters[m].id != x.prompters[n].id
  }

  ghost predicate WithoutOpening(events: seq<Event>) { forall e | e in events :: !e.OpenPrompt? }

  ghost predicate OnTheWay(x: System, n: nat) { n in x.sending || n in x.buffered }

  lemma ServedKept(x: System, y: System)
    requires Served(x) && NoTwins(x)
    requires forall n | n in y.prompters ::
      n in x.prompters && y.prompters[n].id == x.prompters[n].id
        && (x.prompters[n].givingUp ==> y.prompters[n].givingUp)
    requires forall n | n in y.prompters && OnTheWay(x, n) :: OnTheWay(y, n)
    requires forall n | n in y.prompters && LiveAs(x.tables, x.prompters[n].id, n) ::
      LiveAs(y.tables, x.prompters[n].id, n) || OnTheWay(y, n)
    ensures Served(y) && NoTwins(y)
  {
  }

  /** Attempts, owners and waiters do not matter to prompts. */
  lemma ServedTables(x: System, y: System)
    requires Served(x) && NoTwins(x) && y.prompters == x.prompters && y.sending == x.sending && y.buffered == x.buffered
    requires y.tables.challenges.Keys == x.tables.challenges.Keys
    requires forall id | id in x.tables.challenges :: y.tables.challenges[id].serial == x.tables.challenges[id].serial
    ensures Served(y) && NoTwins(y)
  {
    ServedKept(x, y);
  }

  lemma ServedClaim(x: System, w: nat, owner: nat)
    requires Served(x) && NoTwins(x)
    ensures Served(Step(x, TryClaim(w, owner))) && NoTwins(Step(x, TryClaim(w, owner)))
  {
    hide Served, NoTwins;
    ServedTables(x, Step(x, TryClaim(w, owner)));
  }

  lemma ServedDetach(x: System, owner: nat)
    requires Served(x) && NoTwins(x)
    ensures Served(Step(x, DetachEvent(owner))) && NoTwins(Step(x, DetachEvent(owner)))
  {
    DetachKeepsPlaces(x.tables, owner);
    hide Served, NoTwins;
    ServedTables(x, Step(x, DetachEvent(owner)));
  }

  lemma ServedOther(x: System, e: Event)
    requires Served(x) && NoTwins(x) && (e.BeginAttempt? || e.Wake? || e.LeaveClaim?)
    ensures Served(Step(x, e)) && NoTwins(Step(x, e))
  {
    hide Served, NoTwins;
    ServedTables(x, Step(x, e));
  }

  lemma ServedRemoval(x: System, e: Event)
    requires Served(x) && NoTwins(x) && (e.ResolveEvent? || e.CloseEvent?)
    ensures Served(Step(x, e)) && NoTwins(Step(x, e))
  {
    var y := Step(x, e);
    ServedKept(x, y);
  }

  lemma ServedChannel(x: System, e: Event)
    requires Served(x) && NoTwins(x) && (e.Deliver? || e.Receive?)
    ensures Served(Step(x, e)) && NoTwins(Step(x, e))
  {
    hide Served, NoTwins;
    ServedKept(x, Step(x, e));
  }

  lemma ServedGiveUp(x: System, n: nat)
    requires Served(x) && NoTwins(x)
    ensures Served(Step(x, GiveUp(n))) && NoTwins(Step(x, GiveUp(n)))
  {
    hide Served, NoTwins;
    ServedKept(x, Step(x, GiveUp(n)));
  }

  lemma ServedAbandon(x: System, n: nat)
    requires Served(x) && NoTwins(x)
    ensures Served(Step(x, AbandonEvent(n))) && NoTwins(Step(x, AbandonEvent(n)))
  {
    hide Served;
    ServedKept(x, Step(x, AbandonEvent(n)));
  }

  lemma {:induction false} ServedRun(x: System, events: seq<Event>)
    requires Inv(x) && Served(x) && NoTwins(x) && WithoutOpening(events)
    ensures Served(Run(x, events)) && NoTwins(Run(x, events))
    decreases |events|
  {
    if events != [] {
      var e := events[0];
      StepKeeps(x, e);
      hide Inv, Step, Served, NoTwins;
      assert !e.OpenPrompt?;
      if e.ResolveEvent? || e.CloseEvent? { ServedRemoval(x, e); }
      else if e.Deliver? || e.Receive? { ServedChannel(x, e); }
      else if e.GiveUp? { ServedGiveUp(x, e.serial); }
      else if e.AbandonEvent? { ServedAbandon(x, e.serial); }
      else if e.TryClaim? { ServedClaim(x, e.waiter, e.owner); }
      else if e.DetachEvent? { ServedDetach(x, e.owner); }
      else { ServedOther(x, e); }
      ServedRun(Step(x, e), events[1..]);
    }
  }

  /** Opening a prompt is safe for the prompts exactly when its identifier is not
      that of another prompt still running: otherwise the older prompt, giving up,
      takes the newer one's challenge away by identifier and leaves it waiting for
      a result nobody will send. */
  lemma OpeningIsSafeWhenFresh(x: System, e: Event)
    requires Inv(x) && Served(x) && NoTwins(x)
    requires e.OpenPrompt? && Open(x.tables, e.token, e.expired, e.id, e.prompt, e.kind).Opened?
    ensures (forall events | WithoutOpening(events) :: Served(Run(Step(x, e), events))) <==> e.id !in RunningIds(x)
  {
    StepKeeps(x, e);
    if e.id in RunningIds(x) {
      var n :| n in x.prompters && x.prompters[n].id == e.id;
      StrandedTwin(x, e, n);
      assert WithoutOpening([GiveUp(n), AbandonEvent(n)]);
    } else {
      FreshOpening(x, e);
      forall events | WithoutOpening(events) ensures Served(Run(Step(x, e), events)) {
        ServedRun(Step(x, e), events);
      }
    }
  }

  lemma FreshOpening(x: System, e: Event)
    requires Inv(x) && Served(x) && NoTwins(x)
    requires e.OpenPrompt? && Open(x.tables, e.token, e.expired, e.id, e.prompt, e.kind).Opened?
    requires e.id !in RunningIds(x)
    ensures Served(Step(x, e)) && NoTwins(Step(x, e))
  {
    assert forall n | n in x.prompters :: n < x.tables.nextSerial;
    hide Inv;
    var y := Step(x, e);
    assert y.prompters == x.prompters[x.tables.nextSerial := Prompter(e.id, false)] && y.sending == x.sending
      && y.buffered == x.buffered;
    assert y.tables.challenges[e.id].serial == x.tables.nextSerial;
    assert forall id | id in x.tables.challenges ::
      id in y.tables.challenges && y.tables.challenges[id] == x.tables.challenges[id];
    assert forall n | n in x.prompters :: x.prompters[n].id in RunningIds(x);
    hide Step, Open, RunningIds;
    FreshlyOpened(x, y, e.id);
  }

  lemma FreshlyOpened(x: System, y: System, id: string)
    requires Served(x) && NoTwins(x)
    requires forall n | n in x.prompters :: n < x.tables.nextSerial && x.prompters[n].id != id
    requires y.prompters == x.prompters[x.tables.nextSerial := Prompter(id, false)]
    requires y.sending == x.sending && y.buffered == x.buffered
    requires id in y.tables.challenges && y.tables.challenges[id].serial == x.tables.nextSerial
    requires forall i | i in x.tables.challenges ::
      i in y.tables.challenges && y.tables.challenges[i] == x.tables.challenges[i]
    ensures Served(y) && NoTwins(y)
  {
  }

  lemma StrandedTwin(x: System, e: Event, n: nat)
    requires Inv(x) && e.OpenPrompt? && Open(x.tables, e.token, e.expired, e.id, e.prompt, e.kind).Opened?
    requires n in x.prompters && x.prompters[n].id == e.id
    ensures !Served(Run(Step(x, e), [GiveUp(n), AbandonEvent(n)]))
  {
    var k := x.tables.nextSerial;
    assert x.sending[k] + x.buffered[k] + x.received[k] <= x.removed[k] == 0;
    assert n < k;
    hide Inv, Served;
    var y := Step(x, e);
    assert y.prompters == x.prompters[k := Prompter(e.id, false)] && y.sending == x.sending && y.buffered == x.buffered;
    TwinAbandons(y, n, k);
    RunTwo(y, GiveUp(n), AbandonEvent(n));
  }

  /** An older prompt with the same identifier takes the newer one's challenge. */
  lemma TwinAbandons(y: System, n: nat, k: nat)
    requires n in y.prompters && k in y.prompters && n != k && y.prompters[n].id == y.prompters[k].id
    requires !y.prompters[k].givingUp
    requires k !in y.sending && k !in y.buffered
    ensures !Served(Step(Step(y, GiveUp(n)), AbandonEvent(n)))
  {
    var z := Step(y, GiveUp(n));
    assert z == y.(prompters := y.prompters[n := Prompter(y.prompters[n].id, true)]);
    var last := Step(z, AbandonEvent(n));
    assert last.prompters[k] == y.prompters[k] && last.sending == y.sending && last.buffered == y.buffered;
    assert !LiveAs(last.tables, y.prompters[k].id, k);
  }

  lemma RunTwo(x: System, a: Event, b: Event)
    ensures Run(x, [a, b]) == Step(Step(x, a), b)
  {
    assert [a, b][1..] == [b] && [b][1..] == [];
    assert Run(Step(Step(x, a), b), []) == Step(Step(x, a), b);
  }

  lemma {:induction false} RunAppend(x: System, a: seq<Event>, b: seq<Event>)
    ensures Run(x, a + b) == Run(Run(x, a), b)
    decreases |a|
  {
    if a == [] {
      assert a + b == b;
    } else {
      assert (a + b)[1..] == a[1..] + b;
      RunAppend(Step(x, a[0]), a[1..], b);
    }
  }

  ghost function OneOpen(owner: nat): System {
    System(State(2, map["t" := Attempt("h", 1, 1)], map["i" := Challenge(0, "h", Secret, "p", 1, "t", owner)], ["i"],
      2, 1),
           map[0 := Prompter("i", false)], map[], multiset{}, multiset{}, multiset{}, multiset{})
  }

  lemma OneOpenReached()
    ensures Run(Start(2), [BeginAttempt("t", "h", 1), OpenPrompt("t", false, "i", "p", Secret)]) == OneOpen(0)
  {
    var a := Step(Start(2), BeginAttempt("t", "h", 1));
    assert a.tables == State(2, map["t" := Attempt("h", 1, 0)], map[], [], 1, 0);
    assert Step(a, OpenPrompt("t", false, "i", "p", Secret)) == OneOpen(0);
    RunTwo(Start(2), BeginAttempt("t", "h", 1), OpenPrompt("t", false, "i", "p", Secret));
  }

  lemma ResolvedReached(x: System)
    requires x == Run(OneOpen(0), [TryClaim(0, 7), ResolveEvent(7, "i", true, "")])
    ensures x.prompters == map[0 := Prompter("i", false)] && x.tables.challenges == map[] && x.tables.maxPrompts == 2
    ensures x.tables.attempts == map["t" := Attempt("h", 1, 1)]
  {
    var b := OneOpen(0);
    assert HeldBy(b.tables.challenges, 7) == {};
    assert FirstUnowned(b.tables.order, b.tables.challenges) == Some("i");
    assert Step(b, TryClaim(0, 7)).tables == OneOpen(7).tables;
    RunTwo(b, TryClaim(0, 7), ResolveEvent(7, "i", true, ""));
  }

  lemma TwinReached() returns (events: seq<Event>)
    ensures Run(Start(2), events) == Run(OneOpen(0), [TryClaim(0, 7), ResolveEvent(7, "i", true, "")])
    ensures Inv(Run(Start(2), events))
  {
    hide Run, Step, Inv, Start, OneOpen;
    var first := [BeginAttempt("t", "h", 1), OpenPrompt("t", false, "i", "p", Secret)];
    var second := [TryClaim(0, 7), ResolveEvent(7, "i", true, "")];
    events := first + second;
    OneOpenReached();
    RunAppend(Start(2), first, second);
    StartHolds(2);
    RunKeeps(Start(2), events);
  }

  /** Such a run exists: two prompts get the same identifier `i`, the first is
      answered but gives up before it takes the answer. */
  lemma StrandedRun()
    ensures exists events :: !Served(Run(Start(2), events))
  {
    var events := TwinReached();
    var x := Run(Start(2), events);
    ResolvedReached(x);
    hide Run, Step, Inv, Served, Start, OneOpen;
    var open, rest := OpenPrompt("t", false, "i", "p", Secret), [GiveUp(0), AbandonEvent(0)];
    StrandedTwin(x, open, 0);
    RunFirst(x, open, rest);
    RunAppend(Start(2), events, [open] + rest);
  }

  lemma RunFirst(x: System, e: Event, rest: seq<Event>)
    ensures Run(x, [e] + rest) == Run(Step(x, e), rest)
  {
    assert ([e] + rest)[1..] == rest;
  }
}
