/** What prompts, claims and answers say: a claim shows what its prompt asked, and a
    prompt call gets the answer that the owner of its challenge gave. */
module AuthAnswers {
  import opened Wrappers
  import opened AuthBroker
  import opened AuthSystem

  /** `contents` is what each result says, `returned` what prompt calls got, by the
      serial of their challenge; `claims` is what claims returned. */
  datatype Traced = Traced(
    sys: System, contents: map<nat, PromptResult>, returned: map<nat, PromptResult>, claims: seq<Shown>)

  ghost function Trace(t: Traced, e: Event): Traced {
    var s := t.sys.tables;
    var u := t.(sys := Step(t.sys, e));
    match e
    case TryClaim(_, owner) =>
      if owner == 0 then u
      else (match Claim(s, owner)
        case Holding(id) => u.(claims := t.claims + [Show(id, s.challenges[id])])
        case Took(id, _) => u.(claims := t.claims + [Show(id, s.challenges[id])])
        case MustWait => u)
    case ResolveEvent(owner, id, cancel, answer) =>
      var r := Resolve(s, owner, id, cancel, answer);
      if r.ResolveFailed? then u else u.(contents := t.contents[r.serial := r.result])
    case CloseEvent(token) =>
      if token !in s.attempts then u
      else u.(contents := t.contents + map n | n in Serials(s.challenges, OfAttempt(s.challenges, token)) :: Ended)
    case Receive(n) =>
      if n in t.contents && n in u.sys.received && n !in t.sys.received
        then u.(returned := t.returned[n := t.contents[n]]) else u
    case _ => u
  }

  ghost function TraceRun(maxPrompts: nat, events: seq<Event>): Traced {
    if events == [] then Traced(Start(maxPrompts), map[], map[], [])
    else Trace(TraceRun(maxPrompts, events[..|events| - 1]), events[|events| - 1])
  }

  // ----- What happened -----

  ghost function Before(maxPrompts: nat, events: seq<Event>, i: nat): State
    requires i <= |events|
  {
    TraceRun(maxPrompts, events[..i]).sys.tables
  }

  /** The attempt was begun for this endpoint, with this deadline. */
  ghost predicate WasBegun(events: seq<Event>, token: string, endpoint: string, deadline: int) {
    BeginAttempt(token, endpoint, deadline) in events
  }

  /** Event `i` opened this challenge, for an attempt begun before it. */
  ghost predicate AskedAt(maxPrompts: nat, events: seq<Event>, i: nat, n: nat, shown: Shown)
    requires i < |events|
  {
    var e, s := events[i], Before(maxPrompts, events, i);
    && e.OpenPrompt? && Open(s, e.token, e.expired, e.id, e.prompt, e.kind).Opened? && s.nextSerial == n && !e.expired
    && shown.id == e.id && shown.prompt == e.prompt && shown.kind == e.kind
    && WasBegun(events[..i], e.token, shown.endpoint, shown.expiresAt)
  }

  ghost predicate WasAsked(maxPrompts: nat, events: seq<Event>, n: nat, shown: Shown) {
    exists i | 0 <= i < |events| :: AskedAt(maxPrompts, events, i, n, shown)
  }

  /** Event `i` gave this challenge its result: its owner, who was shown what it asked,
      answered or cancelled it, or its attempt ended. */
  ghost predicate SettledAt(maxPrompts: nat, events: seq<Event>, i: nat, n: nat, result: PromptResult)
    requires i < |events|
  {
    var e, s := events[i], Before(maxPrompts, events, i);
    match result
    case Answer(answer) => e.ResolveEvent? && !e.cancel && e.answer == answer
      && OwnedAs(maxPrompts, events[..i], e, s, n)
    case Cancelled => e.ResolveEvent? && e.cancel && e.answer == "" && OwnedAs(maxPrompts, events[..i], e, s, n)
    case Ended =>
      && e.CloseEvent? && e.token in s.attempts
      && exists id | id in s.challenges :: s.challenges[id].serial == n && s.challenges[id].attempt == e.token
  }

  /** The one who resolves owns the challenge, which shows what was asked. */
  ghost predicate OwnedAs(maxPrompts: nat, past: seq<Event>, e: Event, s: State, n: nat)
    requires e.ResolveEvent?
  {
    && e.owner != 0 && e.id in s.challenges && s.challenges[e.id].serial == n && s.challenges[e.id].owner == e.owner
    && WasAsked(maxPrompts, past, n, Show(e.id, s.challenges[e.id]))
  }

  ghost predicate WasSettled(maxPrompts: nat, events: seq<Event>, n: nat, result: PromptResult) {
    exists i | 0 <= i < |events| :: SettledAt(maxPrompts, events, i, n, result)
  }

  ghost predicate Explained(maxPrompts: nat, events: seq<Event>, results: map<nat, PromptResult>) {
    forall n | n in results :: WasSettled(maxPrompts, events, n, results[n])
  }

  /** Attempts and challenges are as they were begun and opened. */
  ghost predicate Faithful(maxPrompts: nat, events: seq<Event>, s: State) {
    && (forall t | t in s.attempts :: WasBegun(events, t, s.attempts[t].endpoint, s.attempts[t].deadline))
    && (forall id | id in s.challenges ::
      WasAsked(maxPrompts, events, s.challenges[id].serial, Show(id, s.challenges[id])))
  }

  ghost predicate ClaimsShow(maxPrompts: nat, events: seq<Event>, claims: seq<Shown>) {
    forall c | c in claims :: exists n :: WasAsked(maxPrompts, events, n, c)
  }

  // ----- More events change nothing about the past -----

  lemma AskedMore(maxPrompts: nat, events: seq<Event>, e: Event, n: nat, shown: Shown)
    requires WasAsked(maxPrompts, events, n, shown)
    ensures WasAsked(maxPrompts, events + [e], n, shown)
  {
    hide Open, TraceRun;
    var i :| 0 <= i < |events| && AskedAt(maxPrompts, events, i, n, shown);
    assert (events + [e])[..i] == events[..i] && (events + [e])[i] == events[i];
    assert AskedAt(maxPrompts, events + [e], i, n, shown);
  }

  lemma SettledMore(maxPrompts: nat, events: seq<Event>, e: Event, n: nat, result: PromptResult)
    requires WasSettled(maxPrompts, events, n, result)
    ensures WasSettled(maxPrompts, events + [e], n, result)
  {
    hide OwnedAs, TraceRun;
    var i :| 0 <= i < |events| && SettledAt(maxPrompts, events, i, n, result);
    assert (events + [e])[..i] == events[..i] && (events + [e])[i] == events[i];
    assert SettledAt(maxPrompts, events + [e], i, n, result);
  }

  lemma ExplainedMore(maxPrompts: nat, events: seq<Event>, e: Event, results: map<nat, PromptResult>)
    requires Explained(maxPrompts, events, results)
    ensures Explained(maxPrompts, events + [e], results)
  {
    hide WasSettled;
    forall n | n in results ensures WasSettled(maxPrompts, events + [e], n, results[n]) {
      SettledMore(maxPrompts, events, e, n, results[n]);
    }
  }

  // ----- One event -----

  lemma TraceLast(maxPrompts: nat, past: seq<Event>, e: Event)
    ensures TraceRun(maxPrompts, past + [e]) == Trace(TraceRun(maxPrompts, past), e)
  {
    assert (past + [e])[..|past|] == past;
    hide Trace;
  }

  lemma TraceStep(t: Traced, e: Event)
    ensures Trace(t, e).sys == Step(t.sys, e)
  {
    hide Step;
  }

  lemma TraceReturns(t: Traced, e: Event)
    ensures t.returned.Keys <= Trace(t, e).returned.Keys
    ensures forall n | n in Trace(t, e).returned ::
      || (n in t.returned && Trace(t, e).returned[n] == t.returned[n])
      || (n in t.contents && Trace(t, e).returned[n] == t.contents[n])
  {
    hide Step;
  }

  /** Only a receive takes a result out of its channel. */
  lemma ReceivedFrom(x: System, e: Event, n: nat)
    requires n in Step(x, e).received && n !in x.received
    ensures e == Receive(n) && n in x.buffered
  {
    hide Begin, Open, Claim, Resolve, Detach, Close, Abandon, Serials, OfAttempt;
  }

  lemma TraceReceives(t: Traced, e: Event, n: nat)
    requires Said(t) && n in Trace(t, e).sys.received && n !in t.sys.received
    ensures n in Trace(t, e).returned
  {
    hide Step;
    TraceStep(t, e);
    ReceivedFrom(t.sys, e, n);
  }

  /** Endpoint and deadline of an attempt never change. */
  lemma AttemptsFrom(x: System, e: Event, t: string)
    requires t in Step(x, e).tables.attempts
    ensures var a := Step(x, e).tables.attempts[t];
      || (t in x.tables.attempts && x.tables.attempts[t].endpoint == a.endpoint
        && x.tables.attempts[t].deadline == a.deadline)
      || e == BeginAttempt(t, a.endpoint, a.deadline)
  {
    hide Kept, OfAttempt, HeldBy, FirstUnowned, Serials, RemoveFirst;
  }

  /** Nothing shown of a challenge ever changes. */
  lemma ChallengesFrom(x: System, e: Event, id: string)
    requires id in Step(x, e).tables.challenges
    ensures var c := Step(x, e).tables.challenges[id];
      || (id in x.tables.challenges && x.tables.challenges[id].serial == c.serial
          && Show(id, x.tables.challenges[id]) == Show(id, c))
      || (&& e.OpenPrompt? && Open(x.tables, e.token, e.expired, e.id, e.prompt, e.kind).Opened?
          && c.serial == x.tables.nextSerial && e.token in x.tables.attempts
          && Show(id, c) == Shown(e.id, x.tables.attempts[e.token].endpoint, e.kind, e.prompt,
                                  x.tables.attempts[e.token].deadline))
  {
    hide Kept, OfAttempt, FirstUnowned, Serials, RemoveFirst;
  }

  lemma FaithfulAttempts(maxPrompts: nat, events: seq<Event>, e: Event)
    requires Faithful(maxPrompts, events, TraceRun(maxPrompts, events).sys.tables)
    ensures var s := Step(TraceRun(maxPrompts, events).sys, e).tables;
      forall t | t in s.attempts :: WasBegun(events + [e], t, s.attempts[t].endpoint, s.attempts[t].deadline)
  {
    hide Step, TraceRun, WasAsked;
    var x := TraceRun(maxPrompts, events).sys;
    var s := Step(x, e).tables;
    forall t | t in s.attempts ensures WasBegun(events + [e], t, s.attempts[t].endpoint, s.attempts[t].deadline) {
      AttemptsFrom(x, e, t);
    }
  }

  lemma FaithfulChallenges(maxPrompts: nat, events: seq<Event>, e: Event)
    requires Faithful(maxPrompts, events, TraceRun(maxPrompts, events).sys.tables)
    ensures var s := Step(TraceRun(maxPrompts, events).sys, e).tables;
      forall id | id in s.challenges ::
        WasAsked(maxPrompts, events + [e], s.challenges[id].serial, Show(id, s.challenges[id]))
  {
    hide Step, TraceRun, WasAsked, Show, Open;
    var x := TraceRun(maxPrompts, events).sys;
    var s := Step(x, e).tables;
    forall id | id in s.challenges
      ensures WasAsked(maxPrompts, events + [e], s.challenges[id].serial, Show(id, s.challenges[id]))
    {
      ChallengesFrom(x, e, id);
      var c := s.challenges[id];
      if id in x.tables.challenges && x.tables.challenges[id].serial == c.serial
         && Show(id, x.tables.challenges[id]) == Show(id, c) {
        AskedMore(maxPrompts, events, e, c.serial, Show(id, c));
      } else {
        NewlyAsked(maxPrompts, events, e, c.serial, Show(id, c));
      }
    }
  }

  lemma NewlyAsked(maxPrompts: nat, events: seq<Event>, e: Event, n: nat, shown: Shown)
    requires Faithful(maxPrompts, events, TraceRun(maxPrompts, events).sys.tables)
    requires var s := TraceRun(maxPrompts, events).sys.tables;
      && e.OpenPrompt? && Open(s, e.token, e.expired, e.id, e.prompt, e.kind).Opened? && n == s.nextSerial
      && e.token in s.attempts
      && shown == Shown(e.id, s.attempts[e.token].endpoint, e.kind, e.prompt, s.attempts[e.token].deadline)
    ensures WasAsked(maxPrompts, events + [e], n, shown)
  {
    hide TraceRun;
    var all := events + [e];
    assert all[..|events|] == events && all[|events|] == e;
    assert AskedAt(maxPrompts, all, |events|, n, shown);
  }

  lemma NewlyResolved(maxPrompts: nat, events: seq<Event>, e: Event)
    requires Faithful(maxPrompts, events, TraceRun(maxPrompts, events).sys.tables) && e.ResolveEvent?
    ensures var r := Resolve(TraceRun(maxPrompts, events).sys.tables, e.owner, e.id, e.cancel, e.answer);
      r.Resolved? ==> WasSettled(maxPrompts, events + [e], r.serial, r.result)
  {
    hide TraceRun, WasAsked;
    var s := TraceRun(maxPrompts, events).sys.tables;
    var r := Resolve(s, e.owner, e.id, e.cancel, e.answer);
    if r.Resolved? {
      var all := events + [e];
      assert all[..|events|] == events && all[|events|] == e;
      assert OwnedAs(maxPrompts, events, e, s, r.serial);
      hide OwnedAs;
      assert SettledAt(maxPrompts, all, |events|, r.serial, r.result);
    }
  }

  lemma NewlyEnded(maxPrompts: nat, events: seq<Event>, e: Event, n: nat)
    requires e.CloseEvent?
    requires var s := TraceRun(maxPrompts, events).sys.tables;
      e.token in s.attempts && n in Serials(s.challenges, OfAttempt(s.challenges, e.token))
    ensures WasSettled(maxPrompts, events + [e], n, Ended)
  {
    hide TraceRun;
    var all := events + [e];
    assert all[..|events|] == events && all[|events|] == e;
    assert SettledAt(maxPrompts, all, |events|, n, Ended);
  }

  lemma ContentsExplained(maxPrompts: nat, events: seq<Event>, e: Event)
    requires Faithful(maxPrompts, events, TraceRun(maxPrompts, events).sys.tables)
    requires Explained(maxPrompts, events, TraceRun(maxPrompts, events).contents)
    ensures Explained(maxPrompts, events + [e], Trace(TraceRun(maxPrompts, events), e).contents)
  {
    var t := TraceRun(maxPrompts, events);
    ExplainedMore(maxPrompts, events, e, t.contents);
    hide TraceRun, Faithful, WasSettled, Step, Serials, OfAttempt, Resolve;
    var u := Trace(t, e);
    forall n | n in u.contents ensures WasSettled(maxPrompts, events + [e], n, u.contents[n]) {
      ContentsFrom(t, e, n);
      if e.ResolveEvent? { NewlyResolved(maxPrompts, events, e); }
      if e.CloseEvent? && e.token in t.sys.tables.attempts
         && n in Serials(t.sys.tables.challenges, OfAttempt(t.sys.tables.challenges, e.token)) {
        NewlyEnded(maxPrompts, events, e, n);
      }
    }
  }

  lemma ContentsFrom(t: Traced, e: Event, n: nat)
    requires n in Trace(t, e).contents
    ensures var s, result := t.sys.tables, Trace(t, e).contents[n];
      || (n in t.contents && result == t.contents[n])
      || (&& e.ResolveEvent? && Resolve(s, e.owner, e.id, e.cancel, e.answer).Resolved?
          && n == Resolve(s, e.owner, e.id, e.cancel, e.answer).serial
          && result == Resolve(s, e.owner, e.id, e.cancel, e.answer).result)
      || (e.CloseEvent? && e.token in s.attempts && n in Serials(s.challenges, OfAttempt(s.challenges, e.token))
          && result == Ended)
  {
    hide Step, Serials, OfAttempt, Resolve, Claim;
  }

  lemma ClaimsKept(maxPrompts: nat, events: seq<Event>, e: Event)
    requires Faithful(maxPrompts, events, TraceRun(maxPrompts, events).sys.tables)
    requires ClaimsShow(maxPrompts, events, TraceRun(maxPrompts, events).claims)
    ensures ClaimsShow(maxPrompts, events + [e], Trace(TraceRun(maxPrompts, events), e).claims)
  {
    hide TraceRun, WasAsked, Step, Show, FirstUnowned;
    var t := TraceRun(maxPrompts, events);
    var s := t.sys.tables;
    var claims := Trace(t, e).claims;
    forall c | c in claims ensures exists n :: WasAsked(maxPrompts, events + [e], n, c) {
      var n;
      if c in t.claims {
        n :| WasAsked(maxPrompts, events, n, c);
      } else {
        var id :| id in s.challenges && c == Show(id, s.challenges[id]);
        n := s.challenges[id].serial;
      }
      AskedMore(maxPrompts, events, e, n, c);
    }
  }

  /** Over every run, every claim showed what some prompt asked, for the endpoint and
      deadline of its attempt; and what a prompt call got is what the owner of its
      challenge, who was shown what the call asked, resolved it with, or that its
      attempt has ended. */
  lemma {:induction false} EveryRunAnswers(maxPrompts: nat, events: seq<Event>)
    ensures var t := TraceRun(maxPrompts, events);
      && Faithful(maxPrompts, events, t.sys.tables) && ClaimsShow(maxPrompts, events, t.claims)
      && Explained(maxPrompts, events, t.contents) && Explained(maxPrompts, events, t.returned)
    decreases |events|
  {
    hide *;
    if events == [] {
      NothingHappened(maxPrompts);
    } else {
      var past, e := events[..|events| - 1], events[|events| - 1];
      assert events == past + [e];
      EveryRunAnswers(maxPrompts, past);
      TraceLast(maxPrompts, past, e);
      TraceStep(TraceRun(maxPrompts, past), e);
      FaithfulStep(maxPrompts, past, e);
      ContentsExplained(maxPrompts, past, e);
      ClaimsKept(maxPrompts, past, e);
      ReturnedExplained(maxPrompts, past, e);
    }
  }

  lemma NothingHappened(maxPrompts: nat)
    ensures var t := TraceRun(maxPrompts, []);
      && Faithful(maxPrompts, [], t.sys.tables) && ClaimsShow(maxPrompts, [], t.claims)
      && Explained(maxPrompts, [], t.contents) && Explained(maxPrompts, [], t.returned)
  {
  }

  lemma FaithfulStep(maxPrompts: nat, events: seq<Event>, e: Event)
    requires Faithful(maxPrompts, events, TraceRun(maxPrompts, events).sys.tables)
    ensures Faithful(maxPrompts, events + [e], Step(TraceRun(maxPrompts, events).sys, e).tables)
  {
    hide TraceRun, Step, WasAsked, WasBegun, Show;
    FaithfulAttempts(maxPrompts, events, e);
    FaithfulChallenges(maxPrompts, events, e);
  }

  lemma ReturnedExplained(maxPrompts: nat, events: seq<Event>, e: Event)
    requires Explained(maxPrompts, events, TraceRun(maxPrompts, events).contents)
    requires Explained(maxPrompts, events, TraceRun(maxPrompts, events).returned)
    ensures Explained(maxPrompts, events + [e], Trace(TraceRun(maxPrompts, events), e).returned)
  {
    hide TraceRun, WasSettled, Trace;
    var t := TraceRun(maxPrompts, events);
    TraceReturns(t, e);
    ExplainedMore(maxPrompts, events, e, t.contents);
    ExplainedMore(maxPrompts, events, e, t.returned);
  }

  /** The traced run is the run. */
  lemma {:induction false} TraceIsRun(maxPrompts: nat, events: seq<Event>)
    ensures TraceRun(maxPrompts, events).sys == Run(Start(maxPrompts), events)
    decreases |events|
  {
    if events != [] {
      hide *;
      var past, e := events[..|events| - 1], events[|events| - 1];
      assert events == past + [e];
      TraceIsRun(maxPrompts, past);
      TraceLast(maxPrompts, past, e);
      TraceStep(TraceRun(maxPrompts, past), e);
      RunLast(Start(maxPrompts), past, e);
    }
  }

  lemma {:induction false} RunLast(x: System, events: seq<Event>, e: Event)
    ensures Run(x, events + [e]) == Step(Run(x, events), e)
    decreases |events|
  {
    hide Step;
    if events == [] {
      assert (events + [e])[1..] == [];
    } else {
      assert (events + [e])[1..] == events[1..] + [e];
      RunLast(Step(x, events[0]), events[1..], e);
    }
  }

  /** A result that is on its way, in a channel or taken out says something. */
  ghost predicate Said(t: Traced) {
    forall n | n in t.sys.sending || n in t.sys.buffered || n in t.sys.received :: n in t.contents
  }

  lemma SaidStep(t: Traced, e: Event)
    requires Said(t)
    ensures Said(Trace(t, e))
  {
    hide Step, Resolve, Serials, OfAttempt, Claim;
    var y := Step(t.sys, e);
    TraceStep(t, e);
    forall n | n in y.sending || n in y.buffered || n in y.received ensures n in Trace(t, e).contents {
      ResultsFrom(t.sys, e, n);
    }
  }

  /** A result comes from a resolution, from the end of an attempt, or from before. */
  lemma ResultsFrom(x: System, e: Event, n: nat)
    requires var y := Step(x, e); n in y.sending || n in y.buffered || n in y.received
    ensures
      || n in x.sending || n in x.buffered || n in x.received
      || (&& e.ResolveEvent? && Resolve(x.tables, e.owner, e.id, e.cancel, e.answer).Resolved?
          && n == Resolve(x.tables, e.owner, e.id, e.cancel, e.answer).serial)
      || (&& e.CloseEvent? && e.token in x.tables.attempts
          && n in Serials(x.tables.challenges, OfAttempt(x.tables.challenges, e.token)))
  {
    hide Begin, Open, Claim, Resolve, Detach, Close, Abandon, Serials;
  }

  /** Every prompt call that took a result out returned what that result says. */
  lemma {:induction false} ReceivedMeansReturned(maxPrompts: nat, events: seq<Event>)
    ensures var t := TraceRun(maxPrompts, events);
      Said(t) && forall n | n in t.sys.received :: n in t.returned
    decreases |events|
  {
    if events != [] {
      var past, e := events[..|events| - 1], events[|events| - 1];
      assert events == past + [e];
      hide *;
      ReceivedMeansReturned(maxPrompts, past);
      TraceLast(maxPrompts, past, e);
      var t, u := TraceRun(maxPrompts, past), TraceRun(maxPrompts, events);
      TraceReturns(t, e);
      SaidStep(t, e);
      forall n | n in u.sys.received ensures n in u.returned {
        if n !in t.sys.received { TraceReceives(t, e, n); }
      }
    }
  }
}
