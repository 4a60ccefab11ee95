/** Pages under concurrency: calls that take a cursor's lock and receive events one
    by one, among all the other events of the session, and the close that drains
    behind the same lock. */
module SearchPaging {
  import opened SearchTables
  import opened SearchSystem

  /** All the events each stream will ever emit. */
  type Feed = nat -> seq<Event>

  /** A producer stops at its terminal event. */
  ghost predicate EndsAtTerminal(feed: Feed) {
    forall n: nat, i | 0 <= i < |feed(n)| - 1 :: !feed(n)[i].terminal
  }

  datatype Holder = Pager(call: nat) | Drainer

  datatype Page = Page(limit: nat, events: seq<Event>, done: bool)

  /** The session with the locks of its cursors, the pages being filled, how far
      each stream is taken, the pages answered, and the streams a drain has begun on. */
  datatype Paged = Paged(
    base: System, locks: map<nat, Holder>, pages: map<nat, Page>, taken: map<nat, nat>,
    answers: map<nat, seq<seq<Event>>>, drains: set<nat>)

  datatype Move =
    | Session(step: Step)
    | Enter(call: nat, limit: nat)
    | Receive(call: nat)
    | Interrupt(call: nat)
    | Answer(call: nat)
    | LastPage(call: nat)
    | Finish(call: nat)
    | DrainEnter(stream: nat)
    | DrainOne(stream: nat)
    | DrainExit(stream: nat)

  ghost function Taken(x: Paged, n: nat): nat { if n in x.taken then x.taken[n] else 0 }

  ghost function Answers(x: Paged, n: nat): seq<seq<Event>> { if n in x.answers then x.answers[n] else [] }

  ghost function Flatten(pages: seq<seq<Event>>): seq<Event> {
    if pages == [] then [] else Flatten(pages[..|pages| - 1]) + pages[|pages| - 1]
  }

  ghost predicate Reads(calls: map<nat, Call>, c: nat, n: nat) {
    c in calls && (calls[c].Paging? || calls[c].Finishing?) && calls[c].stream == n
  }

  /** The call holds the lock of its cursor. */
  ghost predicate Holds(x: Paged, c: nat) {
    && c in x.base.calls && (x.base.calls[c].Paging? || x.base.calls[c].Finishing?) && c in x.pages
    && x.base.calls[c].stream in x.locks && x.locks[x.base.calls[c].stream] == Pager(c)
  }

  /** The page being filled from a stream. */
  ghost function Current(x: Paged, n: nat): seq<Event> {
    if n in x.locks && x.locks[n].Pager? && x.locks[n].call in x.pages then x.pages[x.locks[n].call].events else []
  }

  ghost function ReadSoFar(x: Paged, n: nat): seq<Event> { Flatten(Answers(x, n)) + Current(x, n) }

  ghost predicate Filling(x: Paged, c: nat) { Holds(x, c) && x.base.calls[c].Paging? && !x.pages[c].done }

  ghost function Unlocked(x: Paged, n: nat, s: Step): Paged {
    x.(base := SearchSystem.Next(x.base, s), locks := x.locks - {n})
  }

  ghost function Answered(x: Paged, n: nat, page: seq<Event>): Paged {
    x.(answers := x.answers[n := Answers(x, n) + [page]])
  }

  ghost function TakeOne(x: Paged, feed: Feed, c: nat): Paged
    requires Holds(x, c)
  {
    var n, page := x.base.calls[c].stream, x.pages[c];
    if Taken(x, n) < |feed(n)| then
      var e := feed(n)[Taken(x, n)];
      x.(taken := x.taken[n := Taken(x, n) + 1],
         pages := x.pages[c := page.(events := page.events + [e], done := e.terminal)])
    else x.(pages := x.pages[c := page.(done := true)])
  }

  /** One move; a move that is not enabled changes nothing. */
  ghost function Moved(x: Paged, feed: Feed, m: Move): Paged {
    match m
    case Session(s) =>
      if s.PageRead? || s.FinishCursor? then x else x.(base := SearchSystem.Next(x.base, s))
    case Enter(c, limit) =>
      if c !in x.base.calls || !x.base.calls[c].Paging? || x.base.calls[c].stream in x.locks then x
      else if limit == 0 || MAX_EVENTS_PER_PAGE < limit then x
      else x.(locks := x.locks[x.base.calls[c].stream := Pager(c)], pages := x.pages[c := Page(limit, [], false)])
    case Receive(c) =>
      if !Filling(x, c) || |x.pages[c].events| >= x.pages[c].limit then x else TakeOne(x, feed, c)
    case Interrupt(c) =>
      if !Filling(x, c) || x.pages[c].events != [] then x else Unlocked(x, x.base.calls[c].stream, PageRead(c, false))
    case Answer(c) =>
      if !Filling(x, c) || x.pages[c].events == [] then x
      else
        var n := x.base.calls[c].stream;
        Unlocked(Answered(x, n, x.pages[c].events), n, PageRead(c, false))
    case LastPage(c) =>
      if !Holds(x, c) || !x.base.calls[c].Paging? || !x.pages[c].done then x
      else x.(base := SearchSystem.Next(x.base, PageRead(c, true)))
    case Finish(c) =>
      if !Holds(x, c) || !x.base.calls[c].Finishing? then x
      else
        var n := x.base.calls[c].stream;
        Unlocked(Answered(x, n, x.pages[c].events), n, FinishCursor(c))
    case DrainEnter(n) =>
      if n !in x.base.drained || n in x.locks then x
      else x.(locks := x.locks[n := Drainer], drains := x.drains + {n})
    case DrainOne(n) =>
      if n !in x.locks || x.locks[n] != Drainer || Taken(x, n) >= |feed(n)| then x
      else x.(taken := x.taken[n := Taken(x, n) + 1])
    case DrainExit(n) =>
      if n !in x.locks || x.locks[n] != Drainer || Taken(x, n) < |feed(n)| then x else x.(locks := x.locks - {n})
  }

  ghost function PagedRun(x: Paged, feed: Feed, moves: seq<Move>): Paged
    decreases |moves|
  {
    if moves == [] then x else PagedRun(Moved(x, feed, moves[0]), feed, moves[1..])
  }

  ghost function PagedStart(): Paged { Paged(Start(), map[], map[], map[], map[], {}) }

  // ----- Invariant -----

  /** What has been read of a stream is the start of it, all of what was taken
      unless a drain took the rest, and everything once the stream is retired. */
  ghost predicate StreamFits(x: Paged, feed: Feed, n: nat) {
    && Taken(x, n) <= |feed(n)| && ReadSoFar(x, n) <= feed(n)
    && (n !in x.drains ==> |ReadSoFar(x, n)| == Taken(x, n))
    && (n in x.drains ==> n in x.base.drained && (Taken(x, n) == |feed(n)| || (n in x.locks && x.locks[n] == Drainer)))
    && (n in x.locks && x.locks[n] == Drainer ==> n in x.drains)
    && (n in x.base.retired ==> Flatten(Answers(x, n)) == feed(n))
  }

  /** A lock is held by a call on that cursor, and a finished page means that the
      stream is at its end. */
  ghost predicate LockFits(x: Paged, feed: Feed, n: nat) {
    n in x.locks && x.locks[n].Pager? ==>
      && Reads(x.base.calls, x.locks[n].call, n) && x.locks[n].call in x.pages
      && (x.pages[x.locks[n].call].done ==> Taken(x, n) == |feed(n)|)
  }

  ghost predicate FinishFits(x: Paged) {
    forall c | c in x.base.calls && x.base.calls[c].Finishing? :: Holds(x, c) && x.pages[c].done
  }

  ghost predicate PagedInv(x: Paged, feed: Feed) {
    Inv(x.base) && FinishFits(x) && forall n: nat :: StreamFits(x, feed, n) && LockFits(x, feed, n)
  }

  lemma PagedStartHolds(feed: Feed)
    ensures PagedInv(PagedStart(), feed)
  {
    StartHolds();
    hide Inv;
    var x := PagedStart();
    forall n: nat ensures StreamFits(x, feed, n) && LockFits(x, feed, n) { assert ReadSoFar(x, n) == []; }
  }

  // ----- Moves -----

  /** A step of the session outside paging leaves reading calls, retired streams and
      the streams to be drained as they are. */
  lemma SessionFrame(x: System, s: Step)
    requires !s.PageRead? && !s.FinishCursor?
    ensures var y := SearchSystem.Next(x, s);
      && (forall c, n :: Reads(x.calls, c, n) ==> c in y.calls && y.calls[c] == x.calls[c])
      && (forall c, n :: Reads(y.calls, c, n) && y.calls[c].Finishing? ==> c in x.calls && x.calls[c] == y.calls[c])
      && (forall n: nat | n in x.drained :: n in y.drained) && y.retired == x.retired
  {
  }

  lemma SessionMove(x: Paged, feed: Feed, s: Step)
    requires PagedInv(x, feed) && !s.PageRead? && !s.FinishCursor?
    ensures PagedInv(Moved(x, feed, Session(s)), feed)
  {
    var y := Moved(x, feed, Session(s));
    StepKeeps(x.base, s);
    SessionFrame(x.base, s);
    hide Inv, SearchSystem.Next;
    forall n: nat ensures StreamFits(y, feed, n) && LockFits(y, feed, n) {
      assert StreamFits(x, feed, n) && LockFits(x, feed, n);
      assert ReadSoFar(y, n) == ReadSoFar(x, n);
    }
    forall c | c in y.base.calls && y.base.calls[c].Finishing? ensures Holds(y, c) && y.pages[c].done {
      assert Reads(y.base.calls, c, y.base.calls[c].stream);
    }
  }

  /** Nothing about a stream changes with the lock of another. */
  lemma OtherStream(x: Paged, y: Paged, feed: Feed, n: nat)
    requires StreamFits(x, feed, n) && LockFits(x, feed, n)
    requires Taken(y, n) == Taken(x, n) && Answers(y, n) == Answers(x, n)
    requires (n in y.locks <==> n in x.locks) && (n in x.locks ==> y.locks[n] == x.locks[n])
    requires n in y.drains <==> n in x.drains
    requires n in x.base.drained ==> n in y.base.drained
    requires n in y.base.retired ==> n in x.base.retired
    requires n in x.locks && x.locks[n].Pager? ==>
      var c := x.locks[n].call; c in y.pages && y.pages[c] == x.pages[c] && Reads(y.base.calls, c, n)
    ensures StreamFits(y, feed, n) && LockFits(y, feed, n)
  {
    assert ReadSoFar(y, n) == ReadSoFar(x, n);
  }

  lemma EnterMove(x: Paged, feed: Feed, c: nat, limit: nat)
    requires PagedInv(x, feed)
    ensures PagedInv(Moved(x, feed, Enter(c, limit)), feed)
  {
    var y := Moved(x, feed, Enter(c, limit));
    if y == x { return; }
    hide Inv;
    var s := x.base.calls[c].stream;
    forall n: nat ensures StreamFits(y, feed, n) && LockFits(y, feed, n) {
      assert StreamFits(x, feed, n) && LockFits(x, feed, n);
      if n == s {
        assert Flatten(Answers(x, n)) + [] == Flatten(Answers(x, n));
        assert ReadSoFar(y, n) == ReadSoFar(x, n);
      } else {
        OtherStream(x, y, feed, n);
      }
    }
  }

  lemma ReceiveMove(x: Paged, feed: Feed, c: nat)
    requires PagedInv(x, feed) && EndsAtTerminal(feed)
    ensures PagedInv(Moved(x, feed, Receive(c)), feed)
  {
    var y := Moved(x, feed, Receive(c));
    if y == x { return; }
    var s := x.base.calls[c].stream;
    assert FinishFits(y) by { hide Inv, StreamFits, LockFits; }
    assert y == TakeOne(x, feed, c) && Filling(x, c);
    hide Inv, StreamFits, LockFits, FinishFits, EndsAtTerminal, TakeOne, Moved;
    forall n: nat ensures StreamFits(y, feed, n) && LockFits(y, feed, n) {
      if n == s { ReceivedFits(x, feed, c); } else { ReceivedOther(x, feed, c, n); }
    }
    assert y.base == x.base by { SameSession(x, feed, c); }
  }

  lemma SameSession(x: Paged, feed: Feed, c: nat)
    requires Holds(x, c)
    ensures TakeOne(x, feed, c).base == x.base
  {
  }

  lemma ReceivedOther(x: Paged, feed: Feed, c: nat, n: nat)
    requires Holds(x, c) && n != x.base.calls[c].stream && StreamFits(x, feed, n) && LockFits(x, feed, n)
    ensures StreamFits(TakeOne(x, feed, c), feed, n) && LockFits(TakeOne(x, feed, c), feed, n)
  {
    hide StreamFits;
    OtherStream(x, TakeOne(x, feed, c), feed, n);
  }

  /** The event received is the next one of the stream. */
  lemma ReceivedFits(x: Paged, feed: Feed, c: nat)
    requires Filling(x, c) && EndsAtTerminal(feed)
    requires var n := x.base.calls[c].stream; StreamFits(x, feed, n) && LockFits(x, feed, n)
    ensures var n := x.base.calls[c].stream;
      StreamFits(TakeOne(x, feed, c), feed, n) && LockFits(TakeOne(x, feed, c), feed, n)
  {
    var n, y := x.base.calls[c].stream, TakeOne(x, feed, c);
    OneMoreRead(x, feed, c);
    hide Flatten, ReadSoFar;
    if Taken(x, n) < |feed(n)| {
      assert ReadSoFar(x, n) == feed(n)[..Taken(x, n)];
      assert ReadSoFar(y, n) == feed(n)[..Taken(x, n) + 1];
    }
  }

  lemma OneMoreRead(x: Paged, feed: Feed, c: nat)
    requires Holds(x, c)
    ensures var n := x.base.calls[c].stream;
      ReadSoFar(TakeOne(x, feed, c), n)
        == if Taken(x, n) < |feed(n)| then ReadSoFar(x, n) + [feed(n)[Taken(x, n)]] else ReadSoFar(x, n)
  {
    hide Flatten;
  }

  lemma FlattenMore(pages: seq<seq<Event>>, page: seq<Event>)
    ensures Flatten(pages + [page]) == Flatten(pages) + page
  {
    assert (pages + [page])[..|pages|] == pages;
  }

  /** A page answered moves what was read from the page to the answers. */
  lemma AnsweredFits(x: Paged, y: Paged, feed: Feed, c: nat, n: nat, page: seq<Event>)
    requires StreamFits(x, feed, n) && LockFits(x, feed, n) && Holds(x, c) && x.base.calls[c].stream == n
    requires page == x.pages[c].events
    requires Answers(y, n) == Answers(x, n) + [page] || (page == [] && Answers(y, n) == Answers(x, n))
    requires n !in y.locks && Taken(y, n) == Taken(x, n) && y.drains == x.drains && y.base.drained == x.base.drained
    requires n in y.base.retired ==> n in x.base.retired || (n !in x.drains && Taken(x, n) == |feed(n)|)
    ensures StreamFits(y, feed, n) && LockFits(y, feed, n)
  {
    FlattenMore(Answers(x, n), page);
    hide Flatten;
    assert ReadSoFar(x, n) == Flatten(Answers(x, n)) + page;
    assert Flatten(Answers(y, n)) == ReadSoFar(x, n);
    assert ReadSoFar(y, n) == ReadSoFar(x, n);
    if n in x.base.retired { assert page == []; }
  }

  /** The call gives back the lock of its cursor. */
  ghost predicate Releases(x: Paged, y: Paged, c: nat)
    requires Holds(x, c)
  {
    var s := x.base.calls[c].stream;
    && y.base.calls == x.base.calls - {c} && y.locks == x.locks - {s} && y.pages == x.pages && y.taken == x.taken
    && y.drains == x.drains && y.base.drained == x.base.drained
    && (forall n: nat | n != s :: Answers(y, n) == Answers(x, n) && (n in y.base.retired ==> n in x.base.retired))
  }

  lemma ReleasedOther(x: Paged, y: Paged, feed: Feed, c: nat, n: nat)
    requires Holds(x, c) && Releases(x, y, c) && n != x.base.calls[c].stream
    requires StreamFits(x, feed, n) && LockFits(x, feed, n)
    ensures StreamFits(y, feed, n) && LockFits(y, feed, n)
  {
    hide StreamFits, Answers;
    OtherStream(x, y, feed, n);
  }

  lemma ReleasedKeeps(x: Paged, y: Paged, feed: Feed, c: nat)
    requires PagedInv(x, feed) && Holds(x, c) && Releases(x, y, c) && Inv(y.base)
    requires var s := x.base.calls[c].stream; StreamFits(y, feed, s) && LockFits(y, feed, s)
    ensures PagedInv(y, feed)
  {
    assert FinishFits(y) by {
      hide Inv, StreamFits, LockFits, Answers;
      forall d | d in y.base.calls && y.base.calls[d].Finishing? ensures Holds(y, d) && y.pages[d].done {
        assert d in x.base.calls && Holds(x, d);
      }
    }
    hide Inv, StreamFits, LockFits, FinishFits, Releases;
    forall n: nat ensures StreamFits(y, feed, n) && LockFits(y, feed, n) {
      if n != x.base.calls[c].stream { ReleasedOther(x, y, feed, c, n); }
    }
  }

  lemma HeldFits(x: Paged, feed: Feed, c: nat)
    requires PagedInv(x, feed) && Holds(x, c)
    ensures Inv(x.base)
    ensures var s := x.base.calls[c].stream;
      && StreamFits(x, feed, s) && LockFits(x, feed, s) && (s in x.drains ==> s in x.base.drained)
      && (x.pages[c].done ==> Taken(x, s) == |feed(s)|) && (x.base.calls[c].Finishing? ==> x.pages[c].done)
  {
    hide Inv;
  }

  lemma AnsweredOnce(x: Paged, s: nat, page: seq<Event>)
    ensures Answers(Answered(x, s, page), s) == Answers(x, s) + [page]
    ensures forall n: nat | n != s :: Answers(Answered(x, s, page), n) == Answers(x, n)
    ensures Answered(x, s, page) == x.(answers := Answered(x, s, page).answers)
  {
  }

  lemma SameTaken(x: Paged, y: Paged, n: nat)
    requires y.taken == x.taken
    ensures Taken(y, n) == Taken(x, n)
  {
  }

  /** A page that ends without the stream: interrupted, or answered. */
  lemma PageEnds(x: Paged, feed: Feed, c: nat, m: Move)
    requires PagedInv(x, feed) && Filling(x, c) && (m == Interrupt(c) || m == Answer(c))
    ensures PagedInv(Moved(x, feed, m), feed)
  {
    hide PagedInv, Inv, StreamFits, LockFits, Flatten, Answered, Taken;
    var y := Moved(x, feed, m);
    var s := x.base.calls[c].stream;
    if y == x { return; }
    HeldFits(x, feed, c);
    StepKeeps(x.base, PageRead(c, false));
    AnsweredOnce(x, s, x.pages[c].events);
    SameTaken(x, y, s);
    AnsweredFits(x, y, feed, c, s, x.pages[c].events);
    ReleasedKeeps(x, y, feed, c);
  }

  lemma LastPageMove(x: Paged, feed: Feed, c: nat)
    requires PagedInv(x, feed)
    ensures PagedInv(Moved(x, feed, LastPage(c)), feed)
  {
    var y := Moved(x, feed, LastPage(c));
    if y == x { return; }
    StepKeeps(x.base, PageRead(c, true));
    hide Inv;
    var k := x.base.calls[c];
    assert y == x.(base := x.base.(calls := x.base.calls[c := Finishing(k.kind, k.id, k.stream)]));
    forall n: nat ensures StreamFits(y, feed, n) && LockFits(y, feed, n) {
      assert StreamFits(x, feed, n) && LockFits(x, feed, n);
      OtherStream(x, y, feed, n);
    }
  }

  /** A cursor leaves the table only with everything its stream emitted answered. */
  lemma FinishMove(x: Paged, feed: Feed, c: nat)
    requires PagedInv(x, feed)
    ensures PagedInv(Moved(x, feed, Finish(c)), feed)
  {
    hide PagedInv, Inv, StreamFits, LockFits, SearchSystem.Next, Flatten, Answered, Taken;
    var y := Moved(x, feed, Finish(c));
    if y == x { return; }
    var s := x.base.calls[c].stream;
    HeldFits(x, feed, c);
    StepKeeps(x.base, FinishCursor(c));
    FinishFrame(x.base, c);
    AnsweredOnce(x, s, x.pages[c].events);
    SameTaken(x, y, s);
    AnsweredFits(x, y, feed, c, s, x.pages[c].events);
    ReleasedKeeps(x, y, feed, c);
  }

  lemma FinishFrame(x: System, c: nat)
    requires Inv(x) && c in x.calls && x.calls[c].Finishing?
    ensures var y, n := SearchSystem.Next(x, FinishCursor(c)), x.calls[c].stream;
      && y.calls == x.calls - {c} && y.drained == x.drained
      && (forall k: nat | k in y.retired :: k in x.retired || k == n)
      && (n in y.retired ==> n in x.retired || n !in x.drained)
  {
    var k := x.calls[c];
    if Remove(x.tables, k.kind, k.id, k.stream) != x.tables {
      assert k.stream in InTable(x.tables) by { RemoveEntry(x.tables, k.kind, k.id, k.stream); }
      assert x.drained[k.stream] + x.retired[k.stream] == 0;
    }
  }

  lemma DrainMove(x: Paged, feed: Feed, m: Move)
    requires PagedInv(x, feed) && (m.DrainEnter? || m.DrainOne? || m.DrainExit?)
    ensures PagedInv(Moved(x, feed, m), feed)
  {
    var y := Moved(x, feed, m);
    if y == x { return; }
    assert FinishFits(y) by {
      hide Inv, StreamFits;
      forall c | c in x.base.calls && x.base.calls[c].Finishing? ensures Holds(y, c) { assert Holds(x, c); }
    }
    assert y.base == x.base;
    hide Inv, StreamFits, LockFits, FinishFits, Moved;
    forall n: nat ensures StreamFits(y, feed, n) && LockFits(y, feed, n) {
      if n == m.stream { DrainedFits(x, feed, m); } else { DrainedOther(x, feed, m, n); }
    }
  }

  lemma DrainedFits(x: Paged, feed: Feed, m: Move)
    requires m.DrainEnter? || m.DrainOne? || m.DrainExit?
    requires StreamFits(x, feed, m.stream) && LockFits(x, feed, m.stream)
    ensures StreamFits(Moved(x, feed, m), feed, m.stream) && LockFits(Moved(x, feed, m), feed, m.stream)
  {
    hide Flatten;
    assert ReadSoFar(Moved(x, feed, m), m.stream) == ReadSoFar(x, m.stream);
  }

  lemma DrainedOther(x: Paged, feed: Feed, m: Move, n: nat)
    requires (m.DrainEnter? || m.DrainOne? || m.DrainExit?) && n != m.stream
    requires StreamFits(x, feed, n) && LockFits(x, feed, n)
    ensures StreamFits(Moved(x, feed, m), feed, n) && LockFits(Moved(x, feed, m), feed, n)
  {
    hide StreamFits;
    OtherStream(x, Moved(x, feed, m), feed, n);
  }

  lemma MoveKeeps(x: Paged, feed: Feed, m: Move)
    requires PagedInv(x, feed) && EndsAtTerminal(feed)
    ensures PagedInv(Moved(x, feed, m), feed)
  {
    hide PagedInv;
    match m
    case Session(s) => if !s.PageRead? && !s.FinishCursor? { SessionMove(x, feed, s); }
    case Enter(c, limit) => EnterMove(x, feed, c, limit);
    case Receive(c) => ReceiveMove(x, feed, c);
    case Interrupt(c) => if Filling(x, c) { PageEnds(x, feed, c, m); }
    case Answer(c) => if Filling(x, c) { PageEnds(x, feed, c, m); }
    case LastPage(c) => LastPageMove(x, feed, c);
    case Finish(c) => FinishMove(x, feed, c);
    case DrainEnter(_) => DrainMove(x, feed, m);
    case DrainOne(_) => DrainMove(x, feed, m);
    case DrainExit(_) => DrainMove(x, feed, m);
  }

  lemma {:induction false} PagedRunKeeps(x: Paged, feed: Feed, moves: seq<Move>)
    requires PagedInv(x, feed) && EndsAtTerminal(feed)
    ensures PagedInv(PagedRun(x, feed, moves), feed)
    decreases |moves|
  {
    if moves != [] {
      MoveKeeps(x, feed, moves[0]);
      hide PagedInv, Moved;
      PagedRunKeeps(Moved(x, feed, moves[0]), feed, moves[1..]);
    }
  }

  /** Over every run from the start, the pages answered for a stream, put together,
      are the beginning of what it emits: no event is lost between two pages, given
      twice or out of order, even while the session closes. Only the last of them
      can be terminal, and a stream that left the table at its end was answered in
      full. */
  lemma PagesAreAPrefix(feed: Feed, moves: seq<Move>, n: nat)
    requires EndsAtTerminal(feed)
    ensures var x := PagedRun(PagedStart(), feed, moves);
      var read := Flatten(Answers(x, n));
      && read <= feed(n)
      && (forall i | 0 <= i < |read| - 1 :: !read[i].terminal)
      && (read != [] && read[|read| - 1].terminal ==> read == feed(n))
      && (n in x.base.retired ==> read == feed(n))
  {
    PagedStartHolds(feed);
    PagedRunKeeps(PagedStart(), feed, moves);
    var x := PagedRun(PagedStart(), feed, moves);
    hide PagedRun, PagedStart, Inv, Flatten;
    assert StreamFits(x, feed, n);
    var read := Flatten(Answers(x, n));
    assert read <= ReadSoFar(x, n) <= feed(n);
    assert forall i | 0 <= i < |read| :: read[i] == feed(n)[i];
  }
}
