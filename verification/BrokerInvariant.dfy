/** What every critical section of the broker keeps. */
module AuthBrokerInvariant {
  import opened Wrappers
  import Keyed
  import opened AuthBroker

  lemma {:induction false} KeptPositions(order: seq<string>, dropped: set<string>, i: nat, j: nat)
    returns (p: nat, q: nat)
    requires i < j < |Kept(order, dropped)|
    ensures p < q < |order| && order[p] == Kept(order, dropped)[i] && order[q] == Kept(order, dropped)[j]
  {
    var tail := order[1..];
    if order[0] in dropped {
      p, q := KeptPositions(tail, dropped, i, j);
      p, q := p + 1, q + 1;
    } else if i == 0 {
      p := 0;
      q := KeptPosition(tail, dropped, j - 1);
      q := q + 1;
    } else {
      p, q := KeptPositions(tail, dropped, i - 1, j - 1);
      p, q := p + 1, q + 1;
    }
  }

  lemma {:induction false} KeptPosition(order: seq<string>, dropped: set<string>, j: nat) returns (q: nat)
    requires j < |Kept(order, dropped)|
    ensures q < |order| && order[q] == Kept(order, dropped)[j]
  {
    if order[0] in dropped {
      q := KeptPosition(order[1..], dropped, j);
      q := q + 1;
    } else if j == 0 {
      q := 0;
    } else {
      q := KeptPosition(order[1..], dropped, j - 1);
      q := q + 1;
    }
  }

  /** Dropping challenges keeps the rest in place. */
  lemma KeptOrdered(order: seq<string>, challenges: map<string, Challenge>, dropped: set<string>)
    requires Ordered(order, challenges)
    ensures Ordered(Kept(order, dropped), challenges - dropped)
  {
    var kept, rest := Kept(order, dropped), challenges - dropped;
    KeptMembers(order, dropped);
    forall i, j | 0 <= i < j < |kept|
      ensures kept[i] != kept[j] && kept[i] in rest && kept[j] in rest && rest[kept[i]].serial < rest[kept[j]].serial
    {
      var p, q := KeptPositions(order, dropped, i, j);
      assert order[p] in Ids(order) && order[q] in Ids(order);
      assert kept[i] in kept && kept[j] in kept;
    }
    assert Ids(kept) == rest.Keys;
  }

  lemma RemoveIsKept(order: seq<string>, id: string)
    requires NoDuplicates(order)
    ensures RemoveFirst(order, id) == Kept(order, {id})
  {
    DropOne(order, {}, id);
    KeptAll(order);
    assert {} + {id} == {id};
  }

  lemma DroppedKeeps(s: State, dropped: set<string>)
    requires Valid(s)
    ensures Valid(s.(challenges := s.challenges - dropped, order := Kept(s.order, dropped)))
  {
    var r := s.(challenges := s.challenges - dropped, order := Kept(s.order, dropped));
    KeptOrdered(s.order, s.challenges, dropped);
    hide Ordered, Kept;
    forall t | t in r.attempts ensures |OfAttempt(r.challenges, t)| <= r.attempts[t].prompts {
      Keyed.SubsetSize(OfAttempt(r.challenges, t), OfAttempt(s.challenges, t));
    }
  }

  lemma DeleteKeeps(s: State, id: string)
    requires Valid(s)
    ensures Valid(Delete(s, id))
  {
    RemoveIsKept(s.order, id);
    DroppedKeeps(s, {id});
  }

  lemma NotifyKeeps(s: State)
    requires Valid(s)
    ensures Valid(Notify(s))
  {
  }

  lemma BeginKeeps(s: State, token: string, endpoint: string, deadline: int)
    requires Valid(s) && Begin(s, token, endpoint, deadline).Some?
    ensures Valid(Begin(s, token, endpoint, deadline).value)
  {
    hide Ordered;
    assert OfAttempt(s.challenges, token) == {};
  }

  lemma OpenKeeps(s: State, token: string, expired: bool, id: string, prompt: string, kind: PromptKind)
    requires Valid(s) && Open(s, token, expired, id, prompt, kind).Opened?
    ensures Valid(Open(s, token, expired, id, prompt, kind).next)
  {
    var r := Open(s, token, expired, id, prompt, kind).next;
    OpenOrdered(s, id, r.challenges[id]);
    OpenBounded(s, token, expired, id, prompt, kind);
    hide Ordered, Bounded;
  }

  lemma OpenBounded(s: State, token: string, expired: bool, id: string, prompt: string, kind: PromptKind)
    requires Bounded(s) && Open(s, token, expired, id, prompt, kind).Opened?
    ensures Bounded(Open(s, token, expired, id, prompt, kind).next)
  {
    var r := Open(s, token, expired, id, prompt, kind).next;
    forall t | t in r.attempts ensures |OfAttempt(r.challenges, t)| <= r.attempts[t].prompts <= r.maxPrompts {
      if t == token {
        assert OfAttempt(r.challenges, t) == OfAttempt(s.challenges, t) + {id};
      } else {
        assert OfAttempt(r.challenges, t) == OfAttempt(s.challenges, t);
      }
    }
  }

  lemma OpenOrdered(s: State, id: string, c: Challenge)
    requires Valid(s) && id !in s.challenges && c.serial == s.nextSerial
    ensures Ordered(s.order + [id], s.challenges[id := c])
  {
    var order, challenges := s.order + [id], s.challenges[id := c];
    assert forall x | x in s.order :: x in Ids(s.order);
    assert Ids(order) == Ids(s.order) + {id};
    forall i, j | 0 <= i < j < |order|
      ensures order[i] != order[j] && order[i] in challenges && order[j] in challenges
      ensures challenges[order[i]].serial < challenges[order[j]].serial
    {
      assert order[i] == s.order[i];
      assert j < |s.order| ==> order[j] == s.order[j];
    }
  }

  /** Same challenges, other owners. */
  ghost predicate OnlyOwners(s: State, r: State) {
    && r == s.(challenges := r.challenges, generation := r.generation)
    && r.challenges.Keys == s.challenges.Keys
    && forall id | id in s.challenges :: r.challenges[id] == s.challenges[id].(owner := r.challenges[id].owner)
  }

  lemma OnlyOwnersKeeps(s: State, r: State)
    requires Valid(s) && OnlyOwners(s, r) && OneEach(r.challenges)
    ensures Valid(r)
  {
    assert Ordered(r.order, r.challenges);
    assert Bounded(r) by {
      hide Ordered, OneEach;
      forall t | t in r.attempts ensures |OfAttempt(r.challenges, t)| <= r.attempts[t].prompts <= r.maxPrompts {
        assert OfAttempt(r.challenges, t) == OfAttempt(s.challenges, t);
      }
    }
    hide Ordered, OneEach, Bounded;
  }

  lemma ClaimKeeps(s: State, owner: nat)
    requires Valid(s) && owner != 0 && Claim(s, owner).Took?
    ensures Valid(Claim(s, owner).next)
  {
    hide Ordered, OneEach, Bounded, Linked;
    var r := Claim(s, owner).next;
    assert forall id | id in s.challenges && s.challenges[id].owner == owner :: id in HeldBy(s.challenges, owner);
    TakenOnce(s.challenges, Claim(s, owner).takenId, owner);
    OnlyOwnersKeeps(s, r);
  }

  lemma TakenOnce(challenges: map<string, Challenge>, id: string, owner: nat)
    requires OneEach(challenges) && id in challenges && forall x | x in challenges :: challenges[x].owner != owner
    ensures OneEach(challenges[id := challenges[id].(owner := owner)])
  {
  }

  lemma DetachKeeps(s: State, owner: nat)
    requires Valid(s)
    ensures Valid(Detach(s, owner))
  {
    hide Ordered, OneEach, Bounded, Linked;
    var r := Detach(s, owner);
    ReleasedOneEach(s.challenges, owner);
    OnlyOwnersKeeps(s, r);
  }

  lemma ReleasedOneEach(challenges: map<string, Challenge>, owner: nat)
    requires OneEach(challenges)
    ensures OneEach(map id | id in challenges :: Release(challenges[id], owner))
  {
  }

  lemma CloseKeeps(s: State, token: string)
    requires Valid(s)
    ensures Valid(Close(s, token))
  {
    var dropped := OfAttempt(s.challenges, token);
    DroppedKeeps(s, dropped);
    var mid := s.(challenges := s.challenges - dropped, order := Kept(s.order, dropped));
    hide Ordered, Kept;
    if token in s.attempts {
      var r := mid.(attempts := mid.attempts - {token});
      assert Valid(r);
      NotifyKeeps(r);
    }
  }

  /** A claim takes the earliest unowned challenge in creation order. */
  lemma ClaimIsFirstCome(s: State, owner: nat)
    requires Valid(s) && owner != 0 && Claim(s, owner).Took?
    ensures var id := Claim(s, owner).takenId;
      && id in s.challenges && s.challenges[id].owner == 0
      && forall x | x in s.challenges && s.challenges[x].owner == 0 :: s.challenges[id].serial <= s.challenges[x].serial
  {
    EarliestUnowned(s.order, s.challenges);
  }

  lemma {:induction false} FirstUnownedIndex(order: seq<string>, challenges: map<string, Challenge>) returns (k: nat)
    requires FirstUnowned(order, challenges).Some?
    ensures k < |order| && order[k] == FirstUnowned(order, challenges).value
    ensures forall i | 0 <= i < k && order[i] in challenges :: challenges[order[i]].owner != 0
  {
    if order[0] in challenges && challenges[order[0]].owner == 0 {
      k := 0;
    } else {
      k := FirstUnownedIndex(order[1..], challenges);
      k := k + 1;
    }
  }

  lemma EarliestUnowned(order: seq<string>, challenges: map<string, Challenge>)
    requires Ordered(order, challenges) && FirstUnowned(order, challenges).Some?
    ensures var id := FirstUnowned(order, challenges).value;
      forall x | x in challenges && challenges[x].owner == 0 :: challenges[id].serial <= challenges[x].serial
  {
    var k := FirstUnownedIndex(order, challenges);
    forall x | x in challenges && challenges[x].owner == 0 ensures challenges[order[k]].serial <= challenges[x].serial {
      assert x in Ids(order);
      var i :| 0 <= i < |order| && order[i] == x;
    }
  }

  /** A detached challenge keeps its place: only owners change. */
  lemma DetachKeepsPlaces(s: State, owner: nat)
    ensures Detach(s, owner).order == s.order && Detach(s, owner).challenges.Keys == s.challenges.Keys
    ensures forall id | id in s.challenges ::
      Detach(s, owner).challenges[id] == s.challenges[id].(owner := Detach(s, owner).challenges[id].owner)
    ensures owner != 0 ==> HeldBy(Detach(s, owner).challenges, owner) == {}
  {
    if owner != 0 && HeldBy(s.challenges, owner) == {} {
    } else if owner != 0 {
      var r := Detach(s, owner);
      assert forall id | id in r.challenges :: r.challenges[id].owner != owner;
    }
  }
}
