/** Search cursors under concurrency: starts that check, start a stream outside
    the lock and check again, pages, and the session's close. Events are critical
    sections or outside calls, in any order. */
module SearchSystem {
  import opened SearchTables

  /** A call between its critical sections. */
  datatype Call =
    | Checked(kind: Kind, id: string)
    | Started(kind: Kind, id: string, stream: nat)
    | Paging(kind: Kind, id: string, stream: nat)
    | Finishing(kind: Kind, id: string, stream: nat)

  /** Streams are numbered as they are started. `drained` counts the times a
      stream was drained, `retired` the times it left the table read to its end. */
  datatype System = System(tables: Tables, calls: map<nat, Call>, drained: multiset<nat>,
    retired: multiset<nat>, next: nat)

  datatype Step =
    | CheckStart(call: nat, kind: Kind, id: string)
    | StreamStarted(call: nat, ok: bool)
    | RegisterStream(call: nat)
    | LookUp(call: nat, kind: Kind, id: string)
    | PageRead(call: nat, done: bool)
    | FinishCursor(call: nat)
    | CloseSession

  ghost function InTable(t: Tables): set<nat> { Streams(t.searches) + Streams(t.content) }

  ghost function Next(x: System, s: Step): System {
    var t := x.tables;
    match s
    case CheckStart(c, kind, id) =>
      if c in x.calls || FirstCheck(t, id) != Go then x else x.(calls := x.calls[c := Checked(kind, id)])
    case StreamStarted(c, ok) =>
      if c !in x.calls || !x.calls[c].Checked? then x
      else if !ok then x.(calls := x.calls - {c})
      else x.(calls := x.calls[c := Started(x.calls[c].kind, x.calls[c].id, x.next)], next := x.next + 1)
    case RegisterStream(c) =>
      if c !in x.calls || !x.calls[c].Started? then x
      else
        var k := x.calls[c];
        if SecondCheck(t, k.kind, k.id) == Go
          then x.(tables := Insert(t, k.kind, k.id, k.stream), calls := x.calls - {c})
        else x.(calls := x.calls - {c}, drained := x.drained + multiset{k.stream})
    case LookUp(c, kind, id) =>
      if c in x.calls || id !in CursorsOf(t, kind) then x
        else x.(calls := x.calls[c := Paging(kind, id, CursorsOf(t, kind)[id])])
    case PageRead(c, done) =>
      if c !in x.calls || !x.calls[c].Paging? then x
      else if !done then x.(calls := x.calls - {c})
      else x.(calls := x.calls[c := Finishing(x.calls[c].kind, x.calls[c].id, x.calls[c].stream)])
    case FinishCursor(c) =>
      if c !in x.calls || !x.calls[c].Finishing? then x
      else
        var k := x.calls[c];
        var r := Remove(t, k.kind, k.id, k.stream);
        var y := x.(tables := r, calls := x.calls - {c});
        if r == t then y else y.(retired := x.retired + multiset{k.stream})
    case CloseSession =>
      if t.closed then x else x.(tables := Tables(map[], map[], true), drained := x.drained + multiset(InTable(t)))
  }

  ghost function Run(x: System, steps: seq<Step>): System
    decreases |steps|
  {
    if steps == [] then x else Run(Next(x, steps[0]), steps[1..])
  }

  ghost function Start(): System { System(Tables(map[], map[], false), map[], multiset{}, multiset{}, 0) }

  // ----- Invariant -----

  /** The tables share no request, hold at most four cursors, and none once the
      session is closed. */
  ghost predicate TablesFit(t: Tables) {
    && t.searches.Keys !! t.content.Keys
    && |t.searches| + |t.content| <= MAX_ACTIVE_SEARCHES
    && (t.closed ==> t.searches == map[] && t.content == map[])
  }

  ghost predicate Injective(m: map<string, nat>) { forall a, b | a in m && b in m && a != b :: m[a] != m[b] }

  ghost predicate OneEntryEach(t: Tables) {
    Injective(t.searches) && Injective(t.content) && Streams(t.searches) !! Streams(t.content)
  }

  ghost function InHand(calls: map<nat, Call>): set<nat> { set c | c in calls && calls[c].Started? :: calls[c].stream }

  ghost predicate OneCallEach(calls: map<nat, Call>) {
    forall a, b | a in calls && b in calls && a != b && calls[a].Started? && calls[b].Started? ::
      calls[a].stream != calls[b].stream
  }

  /** Every started stream is in the hands of its start call, registered, retired
      at its end, or drained: exactly one of these, exactly once. */
  ghost predicate Accounted(x: System) {
    && OneEntryEach(x.tables) && OneCallEach(x.calls) && InTable(x.tables) !! InHand(x.calls)
    && (forall n | n in InTable(x.tables) :: n < x.next) && (forall n | n in InHand(x.calls) :: n < x.next)
    && (forall n: nat ::
      x.drained[n] + x.retired[n] == if n < x.next && n !in InTable(x.tables) && n !in InHand(x.calls) then 1 else 0)
  }

  ghost predicate Inv(x: System) { TablesFit(x.tables) && Accounted(x) }

  lemma StartHolds()
    ensures Inv(Start())
  {
  }

  lemma SizeWith(m: map<string, nat>, id: string, n: nat)
    requires id !in m
    ensures |m[id := n]| == |m| + 1
  {
    assert m[id := n].Keys == m.Keys + {id};
  }

  lemma SizeWithout(m: map<string, nat>, id: string)
    requires id in m
    ensures |m - {id}| == |m| - 1
  {
    var r := m - {id};
    assert m == r[id := m[id]];
    SizeWith(r, id, m[id]);
  }

  lemma InsertFits(t: Tables, kind: Kind, id: string, n: nat)
    requires TablesFit(t) && SecondCheck(t, kind, id) == Go
    ensures TablesFit(Insert(t, kind, id, n))
  {
    SizeWith(CursorsOf(t, kind), id, n);
  }

  lemma RemoveFits(t: Tables, kind: Kind, id: string, n: nat)
    requires TablesFit(t) && Remove(t, kind, id, n) != t
    ensures TablesFit(Remove(t, kind, id, n))
  {
    SizeWithout(CursorsOf(t, kind), id);
  }

  lemma InsertStreams(m: map<string, nat>, id: string, n: nat)
    requires Injective(m) && id !in m && n !in Streams(m)
    ensures Injective(m[id := n]) && Streams(m[id := n]) == Streams(m) + {n}
  {
    var r := m[id := n];
    assert forall a | a in m :: m[a] in Streams(m);
    assert r[id] in Streams(r);
    forall v | v in Streams(m) ensures v in Streams(r) {
      var a :| a in m && m[a] == v;
      assert r[a] == v;
    }
  }

  lemma RemoveStreams(m: map<string, nat>, id: string)
    requires Injective(m) && id in m
    ensures Injective(m - {id}) && Streams(m - {id}) == Streams(m) - {m[id]} && m[id] in Streams(m)
  {
    var r := m - {id};
    forall v | v in Streams(m) && v != m[id] ensures v in Streams(r) {
      var a :| a in m && m[a] == v;
      assert r[a] == v;
    }
    forall v | v in Streams(r) ensures v in Streams(m) && v != m[id] {
      var a :| a in r && r[a] == v;
      assert m[a] == v;
    }
  }

  lemma InsertEntry(t: Tables, kind: Kind, id: string, n: nat)
    requires OneEntryEach(t) && id !in t.searches && id !in t.content && n !in InTable(t)
    ensures OneEntryEach(Insert(t, kind, id, n)) && InTable(Insert(t, kind, id, n)) == InTable(t) + {n}
  {
    InsertStreams(CursorsOf(t, kind), id, n);
    hide Streams, Injective;
  }

  lemma RemoveEntry(t: Tables, kind: Kind, id: string, n: nat)
    requires OneEntryEach(t) && Remove(t, kind, id, n) != t
    ensures OneEntryEach(Remove(t, kind, id, n)) && InTable(Remove(t, kind, id, n)) == InTable(t) - {n}
    ensures n in InTable(t)
  {
    RemoveStreams(CursorsOf(t, kind), id);
    hide Streams, Injective;
  }

  lemma HandWithout(calls: map<nat, Call>, c: nat)
    requires OneCallEach(calls) && c in calls
    ensures OneCallEach(calls - {c})
    ensures InHand(calls - {c}) == InHand(calls) - (if calls[c].Started? then {calls[c].stream} else {})
    ensures calls[c].Started? ==> calls[c].stream in InHand(calls)
  {
    var r := calls - {c};
    forall n | n in InHand(r) ensures n in InHand(calls) && (calls[c].Started? ==> n != calls[c].stream) {
      var a :| a in r && r[a].Started? && r[a].stream == n;
      assert calls[a].stream == n;
    }
    forall n | n in InHand(calls) && !(calls[c].Started? && n == calls[c].stream) ensures n in InHand(r) {
      var a :| a in calls && calls[a].Started? && calls[a].stream == n;
      assert r[a].stream == n;
    }
  }

  lemma HandWith(calls: map<nat, Call>, c: nat, k: Call)
    requires OneCallEach(calls) && (c in calls ==> !calls[c].Started?) && (k.Started? ==> k.stream !in InHand(calls))
    ensures OneCallEach(calls[c := k])
    ensures InHand(calls[c := k]) == InHand(calls) + (if k.Started? then {k.stream} else {})
  {
    var r := calls[c := k];
    assert forall a | a in calls && calls[a].Started? :: calls[a].stream in InHand(calls);
    forall n | n in InHand(calls) ensures n in InHand(r) {
      var a :| a in calls && calls[a].Started? && calls[a].stream == n;
      assert r[a].stream == n;
    }
    if k.Started? { assert r[c].stream in InHand(r); }
  }

  /** A call that holds no stream comes, goes or changes. */
  lemma QuietCall(x: System, y: System)
    requires Inv(x) && y == x.(calls := y.calls) && OneCallEach(y.calls) && InHand(y.calls) == InHand(x.calls)
    ensures Inv(y)
  {
    hide InTable, InHand, OneEntryEach, TablesFit;
  }

  /** The sums move with the places: where a stream leaves the table or a call's
      hands it is drained or retired once. */
  lemma Moved(x: System, y: System, table: set<nat>, hand: set<nat>, done: set<nat>)
    requires Accounted(x) && OneEntryEach(y.tables) && OneCallEach(y.calls) && y.next >= x.next
    requires InTable(y.tables) == table && InHand(y.calls) == hand && table !! hand
    requires forall n: nat :: y.drained[n] + y.retired[n] == x.drained[n] + x.retired[n] + (if n in done then 1 else 0)
    requires forall n | n in table || n in hand :: n < y.next
    requires forall n: nat :: (n < y.next && n !in table && n !in hand) <==>
      ((n < x.next && n !in InTable(x.tables) && n !in InHand(x.calls)) || n in done)
    requires forall n | n in done :: n in InTable(x.tables) || n in InHand(x.calls)
    ensures Accounted(y)
  {
    hide InTable, InHand, OneEntryEach, OneCallEach;
  }

  lemma StartedStep(x: System, c: nat, ok: bool)
    requires Inv(x)
    ensures Inv(Next(x, StreamStarted(c, ok)))
  {
    var y := Next(x, StreamStarted(c, ok));
    if c !in x.calls || !x.calls[c].Checked? { return; }
    hide TablesFit, InHand, OneCallEach, InTable, OneEntryEach;
    if !ok {
      HandWithout(x.calls, c);
      QuietCall(x, y);
    } else {
      NewStream(x, y, c);
    }
  }

  lemma NewStream(x: System, y: System, c: nat)
    requires Inv(x) && c in x.calls && !x.calls[c].Started? && c in y.calls && y.calls[c].Started?
    requires y.calls[c].stream == x.next
    requires y == x.(calls := x.calls[c := y.calls[c]], next := x.next + 1)
    ensures Inv(y)
  {
    hide TablesFit, InHand, OneCallEach, InTable, OneEntryEach;
    HandWith(x.calls, c, y.calls[c]);
    Moved(x, y, InTable(x.tables), InHand(x.calls) + {x.next}, {});
  }

  lemma RegisterStep(x: System, c: nat)
    requires Inv(x)
    ensures Inv(Next(x, RegisterStream(c)))
  {
    var y := Next(x, RegisterStream(c));
    if c !in x.calls || !x.calls[c].Started? { return; }
    var k := x.calls[c];
    hide TablesFit, InHand, OneCallEach, InTable, OneEntryEach;
    HandWithout(x.calls, c);
    if SecondCheck(x.tables, k.kind, k.id) == Go {
      InsertFits(x.tables, k.kind, k.id, k.stream);
      InsertEntry(x.tables, k.kind, k.id, k.stream);
      Moved(x, y, InTable(x.tables) + {k.stream}, InHand(x.calls) - {k.stream}, {});
    } else {
      Moved(x, y, InTable(x.tables), InHand(x.calls) - {k.stream}, {k.stream});
    }
  }

  lemma FinishStep(x: System, c: nat)
    requires Inv(x)
    ensures Inv(Next(x, FinishCursor(c)))
  {
    var y := Next(x, FinishCursor(c));
    if c !in x.calls || !x.calls[c].Finishing? { return; }
    var k := x.calls[c];
    hide TablesFit, InHand, OneCallEach, InTable, OneEntryEach;
    HandWithout(x.calls, c);
    if y.tables == x.tables {
      QuietCall(x, y);
    } else {
      RemoveFits(x.tables, k.kind, k.id, k.stream);
      RemoveEntry(x.tables, k.kind, k.id, k.stream);
      Moved(x, y, InTable(x.tables) - {k.stream}, InHand(x.calls), {k.stream});
    }
  }

  lemma CloseStep(x: System)
    requires Inv(x)
    ensures Inv(Next(x, CloseSession))
  {
    var y := Next(x, CloseSession);
    if !x.tables.closed {
      hide TablesFit, InHand, OneCallEach, InTable, OneEntryEach;
      EmptyTables();
      var gone := InTable(x.tables);
      assert y == x.(tables := Tables(map[], map[], true), drained := x.drained + multiset(gone));
      hide Next;
      Moved(x, y, {}, InHand(x.calls), gone);
    }
  }

  lemma EmptyTables()
    ensures var t := Tables(map[], map[], true); InTable(t) == {} && OneEntryEach(t) && TablesFit(t)
  {
  }

  lemma CallStep(x: System, s: Step)
    requires Inv(x) && (s.CheckStart? || s.LookUp? || s.PageRead?)
    ensures Inv(Next(x, s))
  {
    hide TablesFit, OneEntryEach, InTable;
    var y := Next(x, s);
    if y == x { return; }
    if s.PageRead? && !s.done { HandWithout(x.calls, s.call); } else { HandWith(x.calls, s.call, y.calls[s.call]); }
    hide Inv, InHand, OneCallEach;
    QuietCall(x, y);
  }

  lemma StepKeeps(x: System, s: Step)
    requires Inv(x)
    ensures Inv(Next(x, s))
  {
    hide Inv, Next;
    match s
    case CheckStart(_, _, _) => CallStep(x, s);
    case StreamStarted(c, ok) => StartedStep(x, c, ok);
    case RegisterStream(c) => RegisterStep(x, c);
    case LookUp(_, _, _) => CallStep(x, s);
    case PageRead(_, _) => CallStep(x, s);
    case FinishCursor(c) => FinishStep(x, c);
    case CloseSession => CloseStep(x);
  }

  /** The invariant holds over every run. */
  lemma {:induction false} RunKeeps(x: System, steps: seq<Step>)
    requires Inv(x)
    ensures Inv(Run(x, steps))
    decreases |steps|
  {
    if steps != [] {
      StepKeeps(x, steps[0]);
      RunKeeps(Next(x, steps[0]), steps[1..]);
    }
  }

  /** After close, once the start calls are through, every stream ever started has
      been drained or read to its end, exactly once. */
  lemma ClosedMeansDrained(x: System)
    requires Inv(x) && x.tables.closed && InHand(x.calls) == {}
    ensures forall n: nat | n < x.next :: x.drained[n] + x.retired[n] == 1
  {
    assert InTable(x.tables) == {};
  }

  /** Over every run: the tables share no request and hold at most four cursors, no
      stream is drained or retired twice, and after close, once the start calls are
      through, every stream has been, exactly once. */
  lemma RunSafe(steps: seq<Step>)
    ensures var x := Run(Start(), steps);
      && TablesFit(x.tables)
      && (forall n: nat :: x.drained[n] + x.retired[n] <= 1)
      && (forall n: nat | n in InTable(x.tables) || n in InHand(x.calls) :: x.drained[n] + x.retired[n] == 0)
      && (x.tables.closed && InHand(x.calls) == {} ==> forall n: nat | n < x.next :: x.drained[n] + x.retired[n] == 1)
  {
    StartHolds();
    RunKeeps(Start(), steps);
    var x := Run(Start(), steps);
    hide Run, TablesFit, InTable, InHand, OneEntryEach, OneCallEach;
    forall n: nat ensures x.drained[n] + x.retired[n] <= 1 { assert x.drained[n] + x.retired[n] >= 0; }
    if x.tables.closed && InHand(x.calls) == {} { ClosedMeansDrained(x); }
  }

  lemma RunAt(x: System, steps: seq<Step>, i: nat)
    requires i < |steps|
    ensures Run(x, steps[i..]) == Run(Next(x, steps[i]), steps[i + 1..])
  {
    assert steps[i..][1..] == steps[i + 1..];
  }

  /** A run in which a filename start passes its first check, a content start with
      the same request overtakes it, and the second check reports a full table that
      holds one cursor. */
  lemma ContentDuplicateRun(id: string)
    ensures var steps := [CheckStart(0, Filename, id), StreamStarted(0, true), CheckStart(1, Content, id),
      StreamStarted(1, true), RegisterStream(1)];
      var x := Run(Start(), steps);
      && 0 in x.calls && x.calls[0] == Started(Filename, id, 0)
      && !Full(x.tables) && FirstCheck(x.tables, id) == AlreadyActive
        && SecondCheck(x.tables, Filename, id) == LimitReached
      && Next(x, RegisterStream(0)) == x.(calls := x.calls - {0}, drained := x.drained + multiset{0})
  {
    var x0 := Start();
    var x1 := x0.(calls := map[0 := Checked(Filename, id)]);
    var x2 := x1.(calls := map[0 := Started(Filename, id, 0)], next := 1);
    var x3 := x2.(calls := map[0 := Started(Filename, id, 0), 1 := Checked(Content, id)]);
    var x4 := x3.(calls := map[0 := Started(Filename, id, 0), 1 := Started(Content, id, 1)], next := 2);
    var x5 := x4.(tables := Tables(map[], map[id := 1], false), calls := map[0 := Started(Filename, id, 0)]);
    assert Next(x0, CheckStart(0, Filename, id)) == x1;
    assert Next(x1, StreamStarted(0, true)) == x2;
    assert Next(x2, CheckStart(1, Content, id)) == x3;
    assert Next(x3, StreamStarted(1, true)) == x4;
    assert Next(x4, RegisterStream(1)) == x5;
    assert |x5.tables.content.Keys| == 1 by { assert x5.tables.content.Keys == {id}; }
    assert Next(x5, RegisterStream(0)) == x5.(calls := x5.calls - {0}, drained := x5.drained + multiset{0});
    hide Next;
    var steps := [CheckStart(0, Filename, id), StreamStarted(0, true), CheckStart(1, Content, id),
      StreamStarted(1, true), RegisterStream(1)];
    RunAt(x0, steps, 0);
    RunAt(x1, steps, 1);
    RunAt(x2, steps, 2);
    RunAt(x3, steps, 3);
    RunAt(x4, steps, 4);
    assert steps[0..] == steps && steps[5..] == [];
  }
}
