/** The authentication broker: what each critical section does to its tables. */
module AuthBroker {
  import opened Wrappers

  datatype PromptKind = Secret | Confirm | UnknownKind

  datatype Attempt = Attempt(endpoint: string, deadline: int, prompts: nat)

  /** `serial` numbers challenges in creation order and stands for the identity of
      the challenge's record and its one-slot result channel. Owner 0 is nobody. */
  datatype Challenge = Challenge(
    serial: nat, endpoint: string, kind: PromptKind, prompt: string, expiresAt: int, attempt: string, owner: nat)

  /** `generation` counts the notification channels closed so far. */
  datatype State = State(
    maxPrompts: nat, attempts: map<string, Attempt>, challenges: map<string, Challenge>, order: seq<string>,
    generation: nat, nextSerial: nat)

  datatype OpenError = InvalidRequest | AttemptNotFound | PromptLimit | IdCollision
  datatype ResolveError = InvalidResolution | ChallengeNotFound | NotOwner

  datatype Opening = Opened(next: State) | OpenFailed(error: OpenError)
  datatype Claiming = Holding(id: string) | Took(takenId: string, next: State) | MustWait
  datatype Resolving = Resolved(serial: nat, result: PromptResult, next: State) | ResolveFailed(error: ResolveError)

  /** What a prompt call gets: an answer, or why there is none. */
  datatype PromptResult = Answer(answer: string) | Cancelled | Ended

  /** What a claim shows of a challenge. */
  datatype Shown = Shown(id: string, endpoint: string, kind: PromptKind, prompt: string, expiresAt: int)

  function Show(id: string, c: Challenge): Shown { Shown(id, c.endpoint, c.kind, c.prompt, c.expiresAt) }

  function Notify(s: State): State { s.(generation := s.generation + 1) }

  function RemoveFirst(order: seq<string>, id: string): seq<string> {
    if order == [] then []
    else if order[0] == id then order[1..]
    else [order[0]] + RemoveFirst(order[1..], id)
  }

  function Delete(s: State, id: string): State {
    s.(challenges := s.challenges - {id}, order := RemoveFirst(s.order, id))
  }

  /** The earlier of the timeout and the caller's own deadline. */
  function Deadline(now: int, timeout: int, parent: Option<int>): (d: int)
    ensures d <= now + timeout && (parent.Some? ==> d <= parent.value)
    ensures d == now + timeout || parent == Some(d)
  {
    if parent.Some? && parent.value < now + timeout then parent.value else now + timeout
  }

  function Begin(s: State, token: string, endpoint: string, deadline: int): Option<State> {
    if endpoint == "" || token in s.attempts then None
    else Some(Notify(s.(attempts := s.attempts[token := Attempt(endpoint, deadline, 0)])))
  }

  /** `expired` says whether the attempt's context is done. */
  function Open(s: State, token: string, expired: bool, id: string, prompt: string, kind: PromptKind): Opening {
    if token == "" || prompt == "" then OpenFailed(InvalidRequest)
    else if token !in s.attempts || expired then OpenFailed(AttemptNotFound)
    else if s.attempts[token].prompts >= s.maxPrompts then OpenFailed(PromptLimit)
    else if id in s.challenges then OpenFailed(IdCollision)
    else
      var a := s.attempts[token];
      var c := Challenge(s.nextSerial, a.endpoint, kind, prompt, a.deadline, token, 0);
      Opened(Notify(s.(attempts := s.attempts[token := a.(prompts := a.prompts + 1)],
                       challenges := s.challenges[id := c], order := s.order + [id], nextSerial := s.nextSerial + 1)))
  }

  /** The first identifier in `order` whose challenge nobody owns. */
  function FirstUnowned(order: seq<string>, challenges: map<string, Challenge>): (r: Option<string>)
    ensures r.Some? ==> r.value in order && r.value in challenges && challenges[r.value].owner == 0
    ensures r.None? <==> forall id | id in order && id in challenges :: challenges[id].owner != 0
  {
    if order == [] then None
    else if order[0] in challenges && challenges[order[0]].owner == 0 then Some(order[0])
    else FirstUnowned(order[1..], challenges)
  }

  function HeldBy(challenges: map<string, Challenge>, owner: nat): set<string> {
    set id | id in challenges && challenges[id].owner == owner
  }

  /** What a claim by a nonzero owner finds. */
  ghost function Claim(s: State, owner: nat): Claiming {
    if HeldBy(s.challenges, owner) != {} then
      var id :| id in HeldBy(s.challenges, owner);
      Holding(id)
    else
      var first := FirstUnowned(s.order, s.challenges);
      if first.None? then MustWait
      else Took(first.value, s.(challenges := s.challenges[first.value := s.challenges[first.value].(owner := owner)]))
  }

  function Resolve(s: State, owner: nat, id: string, cancel: bool, answer: string): Resolving {
    if owner == 0 || id == "" || (cancel && answer != "") then ResolveFailed(InvalidResolution)
    else if id !in s.challenges then ResolveFailed(ChallengeNotFound)
    else if s.challenges[id].owner != owner then ResolveFailed(NotOwner)
    else Resolved(s.challenges[id].serial, if cancel then Cancelled else Answer(answer), Notify(Delete(s, id)))
  }

  function Release(c: Challenge, owner: nat): Challenge { if c.owner == owner then c.(owner := 0) else c }

  function Detach(s: State, owner: nat): State {
    if owner == 0 || HeldBy(s.challenges, owner) == {} then s
    else Notify(s.(challenges := map id | id in s.challenges :: Release(s.challenges[id], owner)))
  }

  function OfAttempt(challenges: map<string, Challenge>, token: string): set<string> {
    set id | id in challenges && challenges[id].attempt == token
  }

  function Serials(challenges: map<string, Challenge>, ids: set<string>): set<nat>
    requires ids <= challenges.Keys
  {
    set id | id in ids :: challenges[id].serial
  }

  function Kept(order: seq<string>, dropped: set<string>): seq<string> {
    if order == [] then []
    else if order[0] in dropped then Kept(order[1..], dropped)
    else [order[0]] + Kept(order[1..], dropped)
  }

  function Close(s: State, token: string): State {
    if token !in s.attempts then s
    else
      var dropped := OfAttempt(s.challenges, token);
      Notify(s.(attempts := s.attempts - {token}, challenges := s.challenges - dropped,
        order := Kept(s.order, dropped)))
  }

  function Abandon(s: State, id: string): State {
    if id in s.challenges then Notify(Delete(s, id)) else s
  }

  // ----- The broker's own invariant -----

  ghost predicate NoDuplicates(order: seq<string>) {
    forall i, j | 0 <= i < j < |order| :: order[i] != order[j]
  }

  ghost function Ids(order: seq<string>): set<string> { set id | id in order }

  /** The order list is duplicate-free, holds exactly the live challenges, and is
      in creation order. */
  ghost predicate Ordered(order: seq<string>, challenges: map<string, Challenge>) {
    && NoDuplicates(order) && Ids(order) == challenges.Keys
    && (forall i, j | 0 <= i < j < |order| ::
      order[i] in challenges && order[j] in challenges && challenges[order[i]].serial < challenges[order[j]].serial)
  }

  /** Each live challenge was created before now and its attempt is live. */
  ghost predicate Linked(s: State) {
    forall id | id in s.challenges :: s.challenges[id].serial < s.nextSerial && s.challenges[id].attempt in s.attempts
  }

  /** Each owner holds at most one challenge. */
  ghost predicate OneEach(challenges: map<string, Challenge>) {
    forall a, b | a in challenges && b in challenges && a != b && challenges[a].owner != 0 ::
      challenges[a].owner != challenges[b].owner
  }

  /** An attempt never has more live challenges than prompts, nor more prompts
      than allowed. */
  ghost predicate Bounded(s: State) {
    forall t | t in s.attempts :: |OfAttempt(s.challenges, t)| <= s.attempts[t].prompts <= s.maxPrompts
  }

  ghost predicate Valid(s: State) {
    Ordered(s.order, s.challenges) && Linked(s) && OneEach(s.challenges) && Bounded(s)
  }

  class Broker {
    const maxPrompts: nat
    var attempts: map<string, Attempt>
    var challenges: map<string, Challenge>
    var order: seq<string>
    var generation: nat
    var nextSerial: nat

    ghost function Tables(): State
      reads this
    {
      State(maxPrompts, attempts, challenges, order, generation, nextSerial)
    }

    constructor (maxPrompts: nat)
      requires 1 <= maxPrompts
      ensures Valid(Tables()) && Tables() == State(maxPrompts, map[], map[], [], 0, 0)
    {
      this.maxPrompts := maxPrompts;
      attempts, challenges, order, generation, nextSerial := map[], map[], [], 0, 0;
    }

    /** Closes the notification channel everybody waits on and opens the next. */
    method NotifyLocked()
      modifies this`generation
      ensures Tables() == Notify(old(Tables()))
    {
      generation := generation + 1;
    }

    /** Drops a challenge and cuts it out of the order list. */
    method DeleteChallengeLocked(id: string)
      modifies this`challenges, this`order
      ensures Tables() == Delete(old(Tables()), id)
    {
      challenges := challenges - {id};
      ghost var all := order;
      for index := 0 to |order|
        invariant order == all
        invariant RemoveFirst(all, id) == all[..index] + RemoveFirst(all[index..], id)
      {
        if order[index] == id {
          order := order[..index] + order[index + 1..];
          return;
        }
        assert all[..index + 1] == all[..index] + [all[index]];
      }
      assert all[..|all|] == all;
    }

    /** `drawn` is the random token, if one could be drawn; `parent` is the caller's
        own deadline, which bounds the attempt's. */
    method BeginAttempt(cancelled: bool, endpoint: string, timeout: int, drawn: Option<string>,
          now: int, parent: Option<int>)
      returns (ok: bool)
      modifies this`attempts, this`generation
      ensures ok <==> !cancelled && endpoint != "" && 0 < timeout && drawn.Some? && drawn.value !in old(attempts)
      ensures ok ==> Begin(old(Tables()), drawn.value, endpoint, Deadline(now, timeout, parent)) == Some(Tables())
      ensures !ok ==> Tables() == old(Tables())
    {
      if cancelled || endpoint == "" || timeout <= 0 || drawn.None? || drawn.value in attempts { return false; }
      attempts := attempts[drawn.value := Attempt(endpoint, Deadline(now, timeout, parent), 0)];
      NotifyLocked();
      ok := true;
    }

    /** The part of a prompt before it starts waiting for its result. */
    method OpenChallenge(token: string, expired: bool, id: string, prompt: string, kind: PromptKind)
      returns (error: Option<OpenError>)
      modifies this
      ensures Open(old(Tables()), token, expired, id, prompt, kind)
        == if error.None? then Opened(Tables()) else OpenFailed(error.value)
      ensures error.Some? ==> Tables() == old(Tables())
    {
      if token == "" || prompt == "" { return Some(InvalidRequest); }
      if token !in attempts || expired { return Some(AttemptNotFound); }
      var attempt := attempts[token];
      if attempt.prompts >= maxPrompts { return Some(PromptLimit); }
      if id in challenges { return Some(IdCollision); }
      attempts := attempts[token := attempt.(prompts := attempt.prompts + 1)];
      challenges := challenges[id := Challenge(nextSerial, attempt.endpoint, kind, prompt, attempt.deadline, token, 0)];
      order := order + [id];
      nextSerial := nextSerial + 1;
      NotifyLocked();
      error := None;
    }

    /** One pass of a claim: the challenge held or taken, or nothing yet. */
    method TryClaim(owner: nat) returns (found: Option<Shown>)
      requires owner != 0
      modifies this`challenges
      ensures match Claim(old(Tables()), owner)
        case Holding(_) => found.Some? && found.value.id in HeldBy(old(challenges), owner) && Tables() == old(Tables())
        case Took(id, next) => found.Some? && found.value.id == id && Tables() == next
        case MustWait => found == None && Tables() == old(Tables())
      ensures found.Some? ==>
        found.value.id in old(challenges) && found.value == Show(found.value.id, old(challenges)[found.value.id])
    {
      var rest := challenges.Keys;
      while rest != {}
        invariant rest <= challenges.Keys && challenges == old(challenges)
        invariant forall id | id in challenges && id !in rest :: challenges[id].owner != owner
        decreases |rest|
      {
        var id :| id in rest;
        if challenges[id].owner == owner {
          assert id in HeldBy(challenges, owner);
          return Some(Show(id, challenges[id]));
        }
        rest := rest - {id};
      }
      assert HeldBy(challenges, owner) == {};
      for index := 0 to |order|
        invariant challenges == old(challenges)
        invariant FirstUnowned(order, challenges) == FirstUnowned(order[index..], challenges)
      {
        var id := order[index];
        assert order[index..][1..] == order[index + 1..];
        if id in challenges && challenges[id].owner == 0 {
          challenges := challenges[id := challenges[id].(owner := owner)];
          return Some(Show(id, challenges[id]));
        }
      }
      found := None;
    }

    /** The part of a resolution under the lock; the result is then sent to the
        channel of the challenge with the returned serial. */
    method ResolveChallenge(owner: nat, id: string, cancel: bool, answer: string) returns (r: Resolving)
      modifies this
      ensures r == Resolve(old(Tables()), owner, id, cancel, answer)
      ensures Tables() == if r.Resolved? then r.next else old(Tables())
    {
      if owner == 0 || id == "" || (cancel && answer != "") { return ResolveFailed(InvalidResolution); }
      if id !in challenges { return ResolveFailed(ChallengeNotFound); }
      if challenges[id].owner != owner { return ResolveFailed(NotOwner); }
      var serial := challenges[id].serial;
      DeleteChallengeLocked(id);
      NotifyLocked();
      var result := if cancel then Cancelled else Answer(answer);
      r := Resolved(serial, result, State(maxPrompts, attempts, challenges, order, generation, nextSerial));
    }

    method DetachOwner(owner: nat)
      modifies this`challenges, this`generation
      ensures Tables() == Detach(old(Tables()), owner)
    {
      if owner == 0 { return; }
      ghost var before := challenges;
      var changed := false;
      var rest := challenges.Keys;
      while rest != {}
        invariant rest <= before.Keys && challenges.Keys == before.Keys && generation == old(generation)
        invariant forall id | id in before ::
          challenges[id] == if id in rest then before[id] else Release(before[id], owner)
        invariant changed <==> exists id | id in before && id !in rest :: before[id].owner == owner
        decreases |rest|
      {
        var id :| id in rest;
        if challenges[id].owner == owner {
          challenges := challenges[id := challenges[id].(owner := 0)];
          changed := true;
        }
        rest := rest - {id};
      }
      assert challenges == map id | id in before :: Release(before[id], owner);
      assert changed <==> HeldBy(before, owner) != {} by {
        assert forall id | id in before && before[id].owner == owner :: id in HeldBy(before, owner);
      }
      if changed { NotifyLocked(); } else { assert challenges == before; }
    }

    /** Drops every challenge of an attempt, in whatever order the table yields. */
    method DropChallenges(token: string) returns (states: set<nat>)
      requires NoDuplicates(order)
      modifies this`challenges, this`order
      ensures challenges == old(challenges) - OfAttempt(old(challenges), token)
      ensures order == Kept(old(order), OfAttempt(old(challenges), token))
      ensures states == Serials(old(challenges), OfAttempt(old(challenges), token))
    {
      ghost var all, was := challenges, order;
      states := {};
      var rest := challenges.Keys;
      ghost var dropped: set<string> := {};
      KeptAll(was);
      hide NoDuplicates, Kept, RemoveFirst;
      while rest != {}
        invariant rest <= all.Keys && dropped == OfAttempt(all, token) - rest
        invariant challenges == all - dropped && order == Kept(was, dropped) && states == Serials(all, dropped)
        decreases |rest|
      {
        var id :| id in rest;
        if challenges[id].attempt == token {
          states := states + {challenges[id].serial};
          DropOne(was, dropped, id);
          DeleteChallengeLocked(id);
          dropped := dropped + {id};
        }
        rest := rest - {id};
      }
      assert dropped == OfAttempt(all, token);
    }

    /** Ends an attempt and drops its challenges; their channels are then sent the
        cause. */
    method CloseAttempt(token: string) returns (states: set<nat>)
      requires NoDuplicates(order)
      modifies this
      ensures Tables() == Close(old(Tables()), token)
      ensures states == if token in old(attempts) then Serials(old(challenges), OfAttempt(old(challenges), token))
        else {}
    {
      if token !in attempts { return {}; }
      attempts := attempts - {token};
      states := DropChallenges(token);
      NotifyLocked();
    }

    method AbandonChallenge(id: string)
      modifies this
      ensures Tables() == Abandon(old(Tables()), id)
    {
      if id in challenges {
        DeleteChallengeLocked(id);
        NotifyLocked();
      }
    }
  }

  lemma {:induction false} KeptAll(order: seq<string>)
    ensures Kept(order, {}) == order
  {
    if order != [] { KeptAll(order[1..]); }
  }

  /** Dropping one more identifier is one removal. */
  lemma {:induction false} DropOne(order: seq<string>, dropped: set<string>, id: string)
    requires NoDuplicates(order)
    ensures Kept(order, dropped + {id}) == RemoveFirst(Kept(order, dropped), id)
  {
    if order != [] {
      var tail := order[1..];
      assert NoDuplicates(tail);
      DropOne(tail, dropped, id);
      if order[0] == id {
        assert id !in tail;
        KeptMembers(tail, dropped);
        RemoveAbsent(Kept(tail, dropped), id);
      }
    }
  }

  lemma {:induction false} RemoveAbsent(order: seq<string>, id: string)
    requires id !in order
    ensures RemoveFirst(order, id) == order
  {
    if order != [] { RemoveAbsent(order[1..], id); }
  }

  lemma {:induction false} KeptMembers(order: seq<string>, dropped: set<string>)
    ensures forall id :: id in Kept(order, dropped) <==> id in order && id !in dropped
  {
    if order != [] { KeptMembers(order[1..], dropped); }
  }
}
