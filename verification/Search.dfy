/** A session's search cursors: the two tables, the checks before and after a
    stream is started, and paging through a stream. */
module SearchTables {

  datatype Kind = Filename | Content

  /** Cursors by request; a number stands for the cursor and its event stream. */
  datatype Tables = Tables(searches: map<string, nat>, content: map<string, nat>, closed: bool)

  datatype Verdict = Go | SessionClosed | AlreadyActive | LimitReached

  const MAX_ACTIVE_SEARCHES := 4
  const MAX_EVENTS_PER_PAGE := 256

  predicate Full(t: Tables) { |t.searches| + |t.content| >= MAX_ACTIVE_SEARCHES }

  function FirstCheck(t: Tables, id: string): Verdict {
    if t.closed then SessionClosed
    else if id in t.searches || id in t.content then AlreadyActive
    else if Full(t) then LimitReached
    else Go
  }

  /** The check repeated once the stream is started. A filename search reports a
      duplicate only among filename searches. */
  function SecondCheck(t: Tables, kind: Kind, id: string): Verdict {
    if t.closed then SessionClosed
    else if id in t.searches || id in t.content || Full(t) then
      if id in t.searches || (kind == Content && id in t.content) then AlreadyActive else LimitReached
    else Go
  }

  /** The two checks give the same answer except for a filename search whose
      request is active as a content search. */
  lemma ChecksAgree(t: Tables, kind: Kind, id: string)
    ensures SecondCheck(t, kind, id) == FirstCheck(t, id) <==>
      !(kind == Filename && !t.closed && id in t.content && id !in t.searches)
    ensures SecondCheck(t, kind, id) == Go <==> FirstCheck(t, id) == Go
  {
  }

  /** An active content search makes a filename start with the same request report
      a full table that is not full. */
  lemma ContentDuplicateReportedAsLimit()
    ensures var t := Tables(map[], map["r" := 0], false);
      !Full(t) && FirstCheck(t, "r") == AlreadyActive && SecondCheck(t, Filename, "r") == LimitReached
  {
    var t := Tables(map[], map["r" := 0], false);
    assert |t.content.Keys| == 1 by { assert t.content.Keys == {"r"}; }
  }

  function Insert(t: Tables, kind: Kind, id: string, n: nat): Tables {
    if kind == Filename then t.(searches := t.searches[id := n]) else t.(content := t.content[id := n])
  }

  /** The cursors in a table. */
  function Streams(m: map<string, nat>): set<nat> { set id | id in m :: m[id] }

  function CursorsOf(t: Tables, kind: Kind): map<string, nat> {
    if kind == Filename then t.searches else t.content
  }

  /** Removes a finished cursor if it is still the one under its request. */
  function Remove(t: Tables, kind: Kind, id: string, n: nat): Tables {
    var m := CursorsOf(t, kind);
    if id !in m || m[id] != n then t
    else if kind == Filename then t.(searches := t.searches - {id})
    else t.(content := t.content - {id})
  }

  class SearchSession {
    var searches: map<string, nat>
    var content: map<string, nat>
    var closed: bool

    ghost function View(): Tables
      reads this
    {
      Tables(searches, content, closed)
    }

    constructor ()
      ensures View() == Tables(map[], map[], false)
    {
      searches, content, closed := map[], map[], false;
    }

    /** The critical section before a stream is started. */
    method MayStart(kind: Kind, id: string) returns (v: Verdict)
      ensures v == FirstCheck(View(), id)
    {
      var duplicate := id in searches || id in content;
      var full := |searches| + |content| >= MAX_ACTIVE_SEARCHES;
      if closed { return SessionClosed; }
      if duplicate { return AlreadyActive; }
      if full { return LimitReached; }
      v := Go;
    }

    method RegisterFilename(id: string, n: nat) returns (v: Verdict)
      modifies this
      ensures v == SecondCheck(old(View()), Filename, id)
      ensures View() == if v == Go then Insert(old(View()), Filename, id, n) else old(View())
    {
      if closed { return SessionClosed; }
      var duplicate := id in searches;
      if duplicate || id in content || |searches| + |content| >= MAX_ACTIVE_SEARCHES {
        return if duplicate then AlreadyActive else LimitReached;
      }
      searches := searches[id := n];
      v := Go;
    }

    method RegisterContent(id: string, n: nat) returns (v: Verdict)
      modifies this
      ensures v == SecondCheck(old(View()), Content, id)
      ensures View() == if v == Go then Insert(old(View()), Content, id, n) else old(View())
    {
      var duplicate := id in searches || id in content;
      if closed || duplicate || |searches| + |content| >= MAX_ACTIVE_SEARCHES {
        if closed { return SessionClosed; }
        return if duplicate then AlreadyActive else LimitReached;
      }
      content := content[id := n];
      v := Go;
    }

    method Finish(kind: Kind, id: string, n: nat)
      modifies this
      ensures View() == Remove(old(View()), kind, id, n)
    {
      if kind == Filename {
        if id in searches && searches[id] == n { searches := searches - {id}; }
      } else if id in content && content[id] == n {
        content := content - {id};
      }
    }

    /** Closes the session and hands its cursors over to be drained. */
    method Close() returns (drained: set<nat>)
      modifies this
      ensures View() == Tables(map[], map[], true) || (old(closed) && View() == old(View()))
      ensures drained == if old(closed) then {} else Streams(old(searches)) + Streams(old(content))
    {
      if closed { return {}; }
      closed := true;
      drained := Streams(searches) + Streams(content);
      searches, content := map[], map[];
    }
  }

  // ----- Paging -----

  datatype Event = Event(payload: int, terminal: bool)

  /** A cursor over a stream's events, all that it will ever emit. `taken` counts
      those received so far, by pages or by draining. */
  class Cursor {
    const events: seq<Event>
    var taken: nat
    /** The pages so far, put together, and whether the rest was thrown away. */
    ghost var delivered: seq<Event>
    ghost var drained: bool

    ghost predicate Valid()
      reads this
    {
      && taken <= |events|
      && delivered <= events
      && (if drained then taken == |events| else delivered == events[..taken])
    }

    constructor (events: seq<Event>)
      ensures Valid() && this.events == events && delivered == [] && !drained
    {
      this.events, taken, delivered, drained := events, 0, [], false;
    }

    /** One page: waits for a first event, then takes what is ready, up to the
        limit or the terminal event. `ready` is how far the producer has got;
        `interrupted` says that the caller's context ended while waiting. */
    method NextPage(limit: nat, ready: nat, interrupted: bool) returns (page: seq<Event>, done: bool, failed: bool)
      requires Valid() && 1 <= limit <= MAX_EVENTS_PER_PAGE
      modifies this
      ensures Valid() && drained == old(drained) && delivered == old(delivered) + page && |page| <= limit
      ensures failed ==> interrupted && page == [] && !done && taken == old(taken)
      ensures done ==> taken == |events| || (page != [] && page[|page| - 1].terminal)
      ensures !failed && !done ==> page != []
      ensures forall i | 0 <= i < |page| - 1 :: !page[i].terminal
    {
      page, done, failed := [], false, false;
      ghost var before := delivered;
      if interrupted { return page, false, true; }
      if taken == |events| {
        done := true;
      } else {
        page := [events[taken]];
        done := events[taken].terminal;
        Take();
      }
      while !done && |page| < limit
        invariant Valid() && drained == old(drained) && delivered == before + page && |page| <= limit
        invariant done ==> taken == |events| || (page != [] && page[|page| - 1].terminal)
        invariant !done ==> page != [] && forall i | 0 <= i < |page| :: !page[i].terminal
        invariant forall i | 0 <= i < |page| - 1 :: !page[i].terminal
        decreases |events| - taken, !done
      {
        if taken == |events| {
          done := true;
        } else if taken < ready {
          page := page + [events[taken]];
          done := events[taken].terminal;
          Take();
        } else {
          return;
        }
      }
    }

    method Take()
      requires Valid() && taken < |events|
      modifies this
      ensures Valid() && taken == old(taken) + 1 && drained == old(drained)
      ensures delivered == old(delivered) + [events[old(taken)]]
    {
      delivered := delivered + [events[taken]];
      taken := taken + 1;
    }

    /** Throws away everything up to the end of the stream. */
    method Drain()
      requires Valid()
      modifies this
      ensures Valid() && drained && delivered == old(delivered)
    {
      while taken < |events|
        invariant taken <= |events| && delivered == old(delivered) && delivered <= events
      {
        taken := taken + 1;
      }
      drained := true;
    }
  }
}
