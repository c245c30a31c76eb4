/** The control threat table that triggers keep in step with faction states and controlling factions.

    Statements write the base tables first; their AFTER triggers then call the refresh of one system at a time
    and see all changes of the statement. */
module ControlThreat {
  import opened Collections
  import opened Galaxy

  const THRESHOLD := 0.10

  datatype StateRow = StateRow(influence: real, updatedAt: int, createdAt: int)

  datatype ThreatRow = ThreatRow(
    factionId: Option<FactionId>,
    challengerFactionId: Option<FactionId>,
    gap: Option<real>,
    isThreatened: bool)

  datatype Status = Entered | Cleared

  datatype ThreatEvent = ThreatEvent(
    system: SystemId,
    factionId: Option<FactionId>,
    status: Status,
    challengerFactionId: Option<FactionId>,
    gap: Option<real>)

  datatype Db = Db(
    controlling: map<SystemId, Option<FactionId>>,
    states: map<RowKey, StateRow>,
    threats: map<SystemId, ThreatRow>,
    outbox: seq<ThreatEvent>)
  {
    function Controller(s: SystemId): Option<FactionId> { if s in controlling then controlling[s] else None }

    function Threat(s: SystemId): Option<ThreatRow> { if s in threats then Some(threats[s]) else None }

    function RowsOf(s: SystemId): map<FactionId, StateRow> {
      map k | k in states && k.system == s :: k.faction := states[k]
    }
  }

  const EMPTY := Db(map[], map[], map[], [])

  // ---------------------------------------------------------------- the challenger

  /** ORDER BY influence DESC, updatedAt DESC, createdAt DESC, factionId ASC */
  predicate RanksBefore(f: FactionId, a: StateRow, g: FactionId, b: StateRow) {
    a.influence > b.influence || (a.influence == b.influence &&
    (a.updatedAt > b.updatedAt || (a.updatedAt == b.updatedAt &&
    (a.createdAt > b.createdAt || (a.createdAt == b.createdAt && f < g)))))
  }

  /** The sort key of a row, descending columns negated. */
  function SortKey(f: FactionId, row: StateRow): seq<real> {
    [-row.influence, -(row.updatedAt as real), -(row.createdAt as real), f as real]
  }

  predicate SortsBefore(a: seq<real>, b: seq<real>) {
    a != [] && b != [] && (a[0] < b[0] || (a[0] == b[0] && SortsBefore(a[1..], b[1..])))
  }

  lemma RankIsSortOrder(f: FactionId, a: StateRow, g: FactionId, b: StateRow)
    ensures RanksBefore(f, a, g, b) <==> SortsBefore(SortKey(f, a), SortKey(g, b))
  {
    var x, y := SortKey(f, a), SortKey(g, b);
    assert SortsBefore(x[3..], y[3..]) <==> f < g;
    assert x[2..][1..] == x[3..] && y[2..][1..] == y[3..];
    assert SortsBefore(x[2..], y[2..]) <==>
           a.createdAt > b.createdAt || (a.createdAt == b.createdAt && SortsBefore(x[3..], y[3..]));
    assert x[1..][1..] == x[2..] && y[1..][1..] == y[2..];
    assert SortsBefore(x[1..], y[1..]) <==>
           a.updatedAt > b.updatedAt || (a.updatedAt == b.updatedAt && SortsBefore(x[2..], y[2..]));
  }

  predicate IsTop(rows: map<FactionId, StateRow>, f: FactionId) {
    f in rows && forall g | g in rows && g != f :: RanksBefore(f, rows[f], g, rows[g])
  }

  lemma {:induction false} TopExists(rows: map<FactionId, StateRow>) returns (f: FactionId)
    requires rows != map[]
    ensures IsTop(rows, f)
    decreases |rows|
  {
    var g :| g in rows;
    if h :| h in rows && h != g {
      var others := rows - {g};
      assert h in others && others.Keys == rows.Keys - {g};
      f := TopExists(others);
      assert forall x | x in rows && x != g :: x in others && others[x] == rows[x];
      if RanksBefore(g, rows[g], f, rows[f]) {
        f := g;
      }
    } else {
      f := g;
    }
  }

  /** The first row of the order, if there is any. */
  ghost function Top(rows: map<FactionId, StateRow>): (top: Option<FactionId>)
    ensures rows == map[] ==> top == None
    ensures rows != map[] ==> top.Some? && IsTop(rows, top.value)
  {
    if rows == map[] then None
    else
      assert exists f :: IsTop(rows, f) by { var f := TopExists(rows); }
      var f :| IsTop(rows, f); Some(f)
  }

  lemma TopIsUnique(rows: map<FactionId, StateRow>, f: FactionId)
    requires IsTop(rows, f)
    ensures Top(rows) == Some(f)
  {
  }

  // ---------------------------------------------------------------- recomputing from scratch

  ghost function Recompute(controller: Option<FactionId>, rows: map<FactionId, StateRow>): ThreatRow {
    var present := controller.Some? && controller.value in rows;
    var challenger := if present then Top(rows - {controller.value}) else None;
    var gap :=
      if challenger.Some? then Some(rows[controller.value].influence - rows[challenger.value].influence) else None;
    ThreatRow(controller, challenger, gap, gap.Some? && gap.value <= THRESHOLD)
  }

  /** What being threatened means: the controlling faction has a row and some other faction of the system comes
      within the threshold of it. */
  predicate ComesWithinThreshold(controller: Option<FactionId>, rows: map<FactionId, StateRow>) {
    && controller.Some? && controller.value in rows
    && exists g | g in rows && g != controller.value ::
         rows[g].influence >= rows[controller.value].influence - 0.10
  }

  lemma ThreatenedMeansWithinThreshold(controller: Option<FactionId>, rows: map<FactionId, StateRow>)
    ensures Recompute(controller, rows).isThreatened <==> ComesWithinThreshold(controller, rows)
    ensures Recompute(controller, rows).isThreatened ==>
              Recompute(controller, rows).challengerFactionId.Some? && Recompute(controller, rows).gap.Some?
                && controller.Some?
  {
    if controller.Some? && controller.value in rows {
      var others := rows - {controller.value};
      if ComesWithinThreshold(controller, rows) {
        var g :| g in rows && g != controller.value
          && rows[g].influence >= rows[controller.value].influence - THRESHOLD;
        assert g in others;
        var top := Top(others).value;
        assert g != top ==> RanksBefore(top, others[top], g, others[g]);
      }
    }
  }

  ghost function Fresh(db: Db, s: SystemId): ThreatRow { Recompute(db.Controller(s), db.RowsOf(s)) }

  // ---------------------------------------------------------------- one refresh

  function Or<T>(a: Option<T>, b: Option<T>): Option<T> { if a.Some? then a else b }

  function EventsFor(s: SystemId, previous: Option<ThreatRow>, now: ThreatRow): (events: seq<ThreatEvent>)
    ensures |events| <= 1 && forall e | e in events :: e.system == s
  {
    var entered := ThreatEvent(s, now.factionId, Entered, now.challengerFactionId, now.gap);
    match previous
    case None => if now.isThreatened then [entered] else []
    case Some(row) =>
      if row.isThreatened == now.isThreatened then []
      else if now.isThreatened then [entered]
      else [ThreatEvent(s, Or(row.factionId, now.factionId), Cleared,
                        Or(row.challengerFactionId, now.challengerFactionId),
                        Or(row.gap, Or(now.gap, Some(THRESHOLD))))]
  }

  ghost function Refresh(db: Db, s: SystemId): Db {
    db.(threats := db.threats[s := Fresh(db, s)], outbox := db.outbox + EventsFor(s, db.Threat(s), Fresh(db, s)))
  }

  ghost function RefreshAll(db: Db, calls: seq<SystemId>): Db {
    if calls == [] then db
    else Refresh(RefreshAll(db, calls[..|calls| - 1]), calls[|calls| - 1])
  }

  function EventsOf(events: seq<ThreatEvent>, s: SystemId): seq<ThreatEvent> {
    if events == [] then []
    else
      var last := events[|events| - 1];
      EventsOf(events[..|events| - 1], s) + if last.system == s then [last] else []
  }

  lemma EventsOfAppend(events: seq<ThreatEvent>, e: ThreatEvent, s: SystemId)
    ensures EventsOf(events + [e], s) == EventsOf(events, s) + if e.system == s then [e] else []
  {
    assert (events + [e])[..|events|] == events;
  }

  lemma EventsOfAtMostOne(outbox: seq<ThreatEvent>, events: seq<ThreatEvent>, t: SystemId, s: SystemId)
    requires |events| <= 1 && forall e | e in events :: e.system == t
    ensures EventsOf(outbox + events, s) == EventsOf(outbox, s) + if t == s then events else []
  {
    if events == [] {
      assert outbox + events == outbox;
    } else {
      assert events == [events[0]] && events[0] in events;
      EventsOfAppend(outbox, events[0], s);
    }
  }

  lemma RefreshSeenBySystem(db: Db, t: SystemId, s: SystemId)
    ensures var db' := Refresh(db, t);
            && db'.Controller(s) == db.Controller(s) && db'.RowsOf(s) == db.RowsOf(s)
            && db'.Threat(s) == (if t == s then Some(Fresh(db, s)) else db.Threat(s))
            && EventsOf(db'.outbox, s) == EventsOf(db.outbox, s) +
                 if t == s then EventsFor(s, db.Threat(s), Fresh(db, s)) else []
  {
    EventsOfAtMostOne(db.outbox, EventsFor(t, db.Threat(t), Fresh(db, t)), t, s);
  }

  /** What any number of refresh calls does to one system: nothing if it is not among them, and otherwise what a
      single call does, however often and in whatever place it is called. */
  lemma {:induction false} RefreshAllSeenBySystem(db: Db, calls: seq<SystemId>, s: SystemId)
    ensures var db' := RefreshAll(db, calls);
            && db'.controlling == db.controlling && db'.states == db.states
            && db'.Threat(s) == (if s in calls then Some(Fresh(db, s)) else db.Threat(s))
            && EventsOf(db'.outbox, s)
               == EventsOf(db.outbox, s) + if s in calls then EventsFor(s, db.Threat(s), Fresh(db, s)) else []
  {
    if calls != [] {
      var front, t := calls[..|calls| - 1], calls[|calls| - 1];
      RefreshAllSeenBySystem(db, front, s);
      OneMoreRefreshSeen(db, RefreshAll(db, front), s in front, t, s);
      assert s in calls <==> s in front || s == t;
    }
  }

  lemma OneMoreRefreshSeen(db: Db, mid: Db, called: bool, t: SystemId, s: SystemId)
    requires mid.controlling == db.controlling && mid.states == db.states
    requires mid.Threat(s) == if called then Some(Fresh(db, s)) else db.Threat(s)
    requires EventsOf(mid.outbox, s) == EventsOf(db.outbox, s) +
             if called then EventsFor(s, db.Threat(s), Fresh(db, s)) else []
    ensures var db' := Refresh(mid, t);
            && db'.controlling == db.controlling && db'.states == db.states
            && db'.Threat(s) == (if called || t == s then Some(Fresh(db, s)) else db.Threat(s))
            && EventsOf(db'.outbox, s)
               == EventsOf(db.outbox, s) + if called || t == s then EventsFor(s, db.Threat(s), Fresh(db, s)) else []
  {
    RefreshSeenBySystem(mid, t, s);
    assert Fresh(mid, s) == Fresh(db, s);
    if called {
      assert EventsFor(s, Some(Fresh(db, s)), Fresh(db, s)) == [];
    }
  }

  /** Refreshing once per changed row or once per distinct affected system, in any order: the threat rows and each
      system's events come out the same. */
  lemma ScheduleDoesNotMatter(db: Db, rowCalls: seq<SystemId>, systemCalls: seq<SystemId>)
    requires forall s :: s in rowCalls <==> s in systemCalls
    ensures RefreshAll(db, rowCalls).threats == RefreshAll(db, systemCalls).threats
    ensures forall s :: EventsOf(RefreshAll(db, rowCalls).outbox, s) == EventsOf(RefreshAll(db, systemCalls).outbox, s)
  {
    var a, b := RefreshAll(db, rowCalls), RefreshAll(db, systemCalls);
    forall s
      ensures a.Threat(s) == b.Threat(s) && EventsOf(a.outbox, s) == EventsOf(b.outbox, s)
    {
      RefreshAllSeenBySystem(db, rowCalls, s);
      RefreshAllSeenBySystem(db, systemCalls, s);
    }
    forall s ensures s in a.threats <==> s in b.threats {
      assert a.Threat(s) == b.Threat(s);
    }
    forall s | s in a.threats ensures a.threats[s] == b.threats[s] {
      assert a.Threat(s) == b.Threat(s);
    }
  }

  // ---------------------------------------------------------------- statements and their triggers

  datatype Statement =
    // one INSERT, UPDATE or DELETE on the faction states: the rows it wrote (None: deleted) and its refresh calls
    | WriteStates(rows: map<RowKey, Option<StateRow>>, calls: seq<SystemId>)
    // one UPDATE of controlling factions and its refresh calls
    | SetControllers(controllers: map<SystemId, Option<FactionId>>, calls: seq<SystemId>)
    | AddSystem(system: SystemId, controller: Option<FactionId>)

  function AffectedSystems(rows: map<RowKey, Option<StateRow>>): set<SystemId> {
    set k | k in rows :: k.system
  }

  /** The systems whose controlling faction the update really changes. */
  function ChangedSystems(db: Db, controllers: map<SystemId, Option<FactionId>>): set<SystemId> {
    set s | s in controllers && db.Controller(s) != controllers[s]
  }

  function Called(calls: seq<SystemId>): set<SystemId> { set s | s in calls }

  predicate Fires(calls: seq<SystemId>, systems: set<SystemId>) { Called(calls) == systems }

  /** Rows refer to existing systems; the triggers fire for exactly the affected ones. */
  predicate Valid(db: Db, statement: Statement) {
    match statement
    case WriteStates(rows, calls) =>
      && (forall k | k in rows :: k.system in db.controlling && (rows[k].None? ==> k in db.states))
      && Fires(calls, AffectedSystems(rows))
    case SetControllers(controllers, calls) =>
      controllers.Keys <= db.controlling.Keys && Fires(calls, ChangedSystems(db, controllers))
    case AddSystem(s, _) => s !in db.controlling && s !in db.threats && forall k | k in db.states :: k.system != s
  }

  function WriteRows(states: map<RowKey, StateRow>, rows: map<RowKey, Option<StateRow>>): map<RowKey, StateRow> {
    map k | k in states.Keys + rows.Keys && (k in rows ==> rows[k].Some?) ::
      if k in rows then rows[k].value else states[k]
  }

  ghost function Execute(db: Db, statement: Statement): Db
    requires Valid(db, statement)
  {
    match statement
    case WriteStates(rows, calls) => RefreshAll(db.(states := WriteRows(db.states, rows)), calls)
    case SetControllers(controllers, calls) => RefreshAll(db.(controlling := db.controlling + controllers), calls)
    case AddSystem(s, controller) => db.(controlling := db.controlling[s := controller])
  }

  ghost predicate History(db: Db, statements: seq<Statement>, last: Db)
    decreases statements
  {
    if statements == [] then db == last
    else Valid(db, statements[0]) && History(Execute(db, statements[0]), statements[1..], last)
  }

  lemma {:induction false} HistoryAppend(db: Db, a: seq<Statement>, mid: Db, b: seq<Statement>, last: Db)
    requires History(db, a, mid) && History(mid, b, last)
    ensures History(db, a + b, last)
    decreases a
  {
    if a == [] {
      assert a + b == b;
    } else {
      HistoryAppend(Execute(db, a[0]), a[1..], mid, b, last);
      HistoryPrepend(db, a[0], a[1..] + b, last);
      Associative([a[0]], a[1..], b);
      assert [a[0]] + a[1..] == a;
    }
  }

  lemma HistoryPrepend(db: Db, statement: Statement, statements: seq<Statement>, last: Db)
    requires Valid(db, statement) && History(Execute(db, statement), statements, last)
    ensures History(db, [statement] + statements, last)
  {
    assert ([statement] + statements)[1..] == statements;
  }

  lemma OneStatement(db: Db, statement: Statement)
    requires Valid(db, statement)
    ensures History(db, [statement], Execute(db, statement))
  {
    assert [statement][1..] == [];
  }

  // ---------------------------------------------------------------- the view is maintained

  predicate Alternates(events: seq<ThreatEvent>) {
    forall i: nat | i < |events| :: events[i].status == if i % 2 == 0 then Entered else Cleared
  }

  /** No value is missing, and the gap is one of a threat: `cleared` carries the gap that was stored before. */
  predicate Complete(e: ThreatEvent) {
    e.factionId.Some? && e.challengerFactionId.Some? && e.gap.Some? && e.gap.value <= THRESHOLD
  }

  predicate ShowsThreat(db: Db, s: SystemId) { s in db.threats && db.threats[s].isThreatened }

  ghost predicate Maintained(db: Db, s: SystemId) {
    && (s in db.threats ==> db.threats[s] == Fresh(db, s))
    && (s !in db.threats ==> db.RowsOf(s) == map[])
    && Alternates(EventsOf(db.outbox, s))
    && (ShowsThreat(db, s) <==> |EventsOf(db.outbox, s)| % 2 == 1)
    && (forall e | e in EventsOf(db.outbox, s) :: Complete(e))
  }

  /** The refresh keeps a system's events alternating and complete, whatever row it found. */
  lemma EventsStayInOrder(events: seq<ThreatEvent>, s: SystemId, previous: Option<ThreatRow>,
                          controller: Option<FactionId>, rows: map<FactionId, StateRow>)
    requires Alternates(events) && (forall e | e in events :: Complete(e))
    requires (previous.Some? && previous.value.isThreatened) <==> |events| % 2 == 1
    requires previous.Some? && previous.value.isThreatened ==>
               previous.value.factionId.Some? && previous.value.challengerFactionId.Some?
               && previous.value.gap.Some? && previous.value.gap.value <= THRESHOLD
    ensures var now := Recompute(controller, rows);
            var events' := events + EventsFor(s, previous, now);
            Alternates(events') && (forall e | e in events' :: Complete(e))
              && (now.isThreatened <==> |events'| % 2 == 1)
  {
    ThreatenedMeansWithinThreshold(controller, rows);
  }

  lemma StaleRowIsComplete(db: Db, s: SystemId)
    requires Maintained(db, s) && ShowsThreat(db, s)
    ensures var row := db.threats[s];
            row.factionId.Some? && row.challengerFactionId.Some? && row.gap.Some? && row.gap.value <= THRESHOLD
  {
    ThreatenedMeansWithinThreshold(db.Controller(s), db.RowsOf(s));
  }

  /** After a statement changed the base tables, refreshing the affected systems restores the view for each system. */
  lemma RefreshRestores(db: Db, changed: Db, calls: seq<SystemId>, s: SystemId)
    requires Maintained(db, s) && changed.threats == db.threats && changed.outbox == db.outbox
    requires s !in calls ==> changed.Controller(s) == db.Controller(s) && changed.RowsOf(s) == db.RowsOf(s)
    ensures Maintained(RefreshAll(changed, calls), s)
  {
    RefreshAllSeenBySystem(changed, calls, s);
    var db' := RefreshAll(changed, calls);
    if ShowsThreat(db, s) {
      StaleRowIsComplete(db, s);
    }
    EventsStayInOrder(EventsOf(db.outbox, s), s, db.Threat(s), changed.Controller(s), changed.RowsOf(s));
    assert db'.Threat(s) == if s in db'.threats then Some(db'.threats[s]) else None;
    assert db.Threat(s) == if s in db.threats then Some(db.threats[s]) else None;
    if s !in calls {
      assert EventsOf(db.outbox, s) + [] == EventsOf(db.outbox, s);
    }
  }

  /** A system that a statement's triggers do not refresh has the same rows and controlling faction as before. */
  lemma OthersUntouched(db: Db, rows: map<RowKey, Option<StateRow>>, calls: seq<SystemId>, s: SystemId)
    requires Fires(calls, AffectedSystems(rows)) && s !in calls
    ensures db.(states := WriteRows(db.states, rows)).RowsOf(s) == db.RowsOf(s)
  {
    assert s !in AffectedSystems(rows);
    assert forall k | k in rows :: k.system != s;
  }

  lemma OthersKeepTheirController(db: Db, controllers: map<SystemId, Option<FactionId>>, calls: seq<SystemId>,
                                  s: SystemId)
    requires Valid(db, SetControllers(controllers, calls))
    ensures var changed := db.(controlling := db.controlling + controllers);
            changed.RowsOf(s) == db.RowsOf(s) && (s !in calls ==> changed.Controller(s) == db.Controller(s))
  {
    assert s !in calls ==> s !in ChangedSystems(db, controllers);
  }

  lemma ExecuteMaintains(db: Db, statement: Statement, s: SystemId)
    requires Valid(db, statement) && Maintained(db, s)
    ensures Maintained(Execute(db, statement), s)
  {
    match statement
    case WriteStates(rows, calls) =>
      if s !in calls {
        OthersUntouched(db, rows, calls, s);
      }
      RefreshRestores(db, db.(states := WriteRows(db.states, rows)), calls, s);
    case SetControllers(controllers, calls) =>
      OthersKeepTheirController(db, controllers, calls, s);
      RefreshRestores(db, db.(controlling := db.controlling + controllers), calls, s);
    case AddSystem(t, controller) =>
      var db' := Execute(db, statement);
      assert db'.RowsOf(s) == db.RowsOf(s);
  }

  lemma {:induction false} HistoryMaintains(db: Db, statements: seq<Statement>, last: Db, s: SystemId)
    requires Maintained(db, s) && History(db, statements, last)
    ensures Maintained(last, s)
    decreases statements
  {
    if statements != [] {
      ExecuteMaintains(db, statements[0], s);
      HistoryMaintains(Execute(db, statements[0]), statements[1..], last, s);
    }
  }

  /** After every history of statements from empty tables: a system shows a threat exactly when some challenger
      comes within the threshold of its controlling faction now; a stored row is what a recomputation gives; a
      threatened row names both factions and the gap; the system's events alternate, starting with entered, the
      last one is entered exactly while it is threatened, none lacks a value, and none, not even a cleared one,
      carries a gap above the threshold. */
  lemma ViewFollowsTables(statements: seq<Statement>, last: Db, s: SystemId)
    requires History(EMPTY, statements, last)
    ensures ShowsThreat(last, s) <==> ComesWithinThreshold(last.Controller(s), last.RowsOf(s))
    ensures s in last.threats ==> last.threats[s] == Fresh(last, s)
    ensures ShowsThreat(last, s) ==>
              last.threats[s].factionId.Some? && last.threats[s].challengerFactionId.Some? && last.threats[s].gap.Some?
    ensures Alternates(EventsOf(last.outbox, s)) && (forall e | e in EventsOf(last.outbox, s) :: Complete(e))
    ensures ShowsThreat(last, s)
       <==> EventsOf(last.outbox, s) != [] && EventsOf(last.outbox, s)[|EventsOf(last.outbox, s)| - 1].status == Entered
  {
    assert EMPTY.RowsOf(s) == map[];
    HistoryMaintains(EMPTY, statements, last, s);
    ThreatenedMeansWithinThreshold(last.Controller(s), last.RowsOf(s));
    LastOfAlternating(EventsOf(last.outbox, s));
  }

  // ---------------------------------------------------------------- whom the events name

  /** The first row of a faction other than the controlling one, by influence, then the latest update, the latest
      creation and the smallest id. */
  predicate Challenges(controller: FactionId, rows: map<FactionId, StateRow>, g: FactionId) {
    && g in rows && g != controller
    && forall h | h in rows && h != controller && h != g ::
         && rows[h].influence <= rows[g].influence
         && SortsBefore(SortKey(g, rows[g]), SortKey(h, rows[h]))
  }

  /** What a row or an event says of the controlling faction, its challenger and the gap between their influences. */
  predicate Names(factionId: Option<FactionId>, challengerFactionId: Option<FactionId>, gap: Option<real>,
                  controller: Option<FactionId>, rows: map<FactionId, StateRow>)
  {
    && factionId == controller
    && if controller.Some? && controller.value in rows && |rows| > 1 then
         && challengerFactionId.Some? && Challenges(controller.value, rows, challengerFactionId.value)
         && gap == Some(rows[controller.value].influence - rows[challengerFactionId.value].influence)
       else challengerFactionId == None && gap == None
  }

  lemma RowNames(controller: Option<FactionId>, rows: map<FactionId, StateRow>)
    ensures var row := Recompute(controller, rows);
            Names(row.factionId, row.challengerFactionId, row.gap, controller, rows)
  {
    if controller.Some? && controller.value in rows {
      var others := rows - {controller.value};
      assert others.Keys == rows.Keys - {controller.value} && |others| == |others.Keys| && |rows| == |rows.Keys|;
      if |rows| > 1 {
        assert others != map[];
        TopChallenges(controller.value, rows, Top(others).value);
      } else {
        assert others == map[];
      }
    }
  }

  lemma TopChallenges(controller: FactionId, rows: map<FactionId, StateRow>, top: FactionId)
    requires IsTop(rows - {controller}, top)
    ensures Challenges(controller, rows, top)
  {
    var others := rows - {controller};
    forall h | h in rows && h != controller && h != top
      ensures rows[h].influence <= rows[top].influence && SortsBefore(SortKey(top, rows[top]), SortKey(h, rows[h]))
    {
      assert h in others && RanksBefore(top, others[top], h, others[h]);
      RankIsSortOrder(top, rows[top], h, rows[h]);
    }
  }

  predicate EventNames(e: ThreatEvent, s: SystemId, controller: Option<FactionId>, rows: map<FactionId, StateRow>) {
    e.system == s && controller.Some? && Names(e.factionId, e.challengerFactionId, e.gap, controller, rows)
  }

  /** What one refresh announces. Entered: the controlling faction of now, its first challenger and their gap. Cleared:
      the faction, challenger and gap of the row that was stored before. Otherwise nothing. */
  predicate RefreshAnnounces(db: Db, s: SystemId, news: seq<ThreatEvent>) {
    var shown, comes := ShowsThreat(db, s), ComesWithinThreshold(db.Controller(s), db.RowsOf(s));
    if comes && !shown then
      |news| == 1 && news[0].status == Entered && EventNames(news[0], s, db.Controller(s), db.RowsOf(s))
    else if shown && !comes then
      && |news| == 1 && news[0].status == Cleared && news[0].system == s
      && (db.threats[s].factionId.Some? ==> news[0].factionId == db.threats[s].factionId)
      && (db.threats[s].challengerFactionId.Some? ==>
            news[0].challengerFactionId == db.threats[s].challengerFactionId)
      && (db.threats[s].gap.Some? ==> news[0].gap == db.threats[s].gap)
    else news == []
  }

  lemma RefreshNames(db: Db, s: SystemId)
    ensures Refresh(db, s).outbox == db.outbox + EventsFor(s, db.Threat(s), Fresh(db, s))
    ensures RefreshAnnounces(db, s, EventsFor(s, db.Threat(s), Fresh(db, s)))
  {
    ThreatenedMeansWithinThreshold(db.Controller(s), db.RowsOf(s));
    RowNames(db.Controller(s), db.RowsOf(s));
  }

  /** What one statement announces about a system, told from the tables before and after it alone. */
  predicate Tells(before: Db, after: Db, s: SystemId) {
    var early, late := EventsOf(before.outbox, s), EventsOf(after.outbox, s);
    var came := ComesWithinThreshold(before.Controller(s), before.RowsOf(s));
    var comes := ComesWithinThreshold(after.Controller(s), after.RowsOf(s));
    if !came && comes then
      && |late| == |early| + 1 && early == late[..|early|] && late[|early|].status == Entered
      && EventNames(late[|early|], s, after.Controller(s), after.RowsOf(s))
    else if came && !comes then
      && |late| == |early| + 1 && early == late[..|early|] && late[|early|].status == Cleared
      && EventNames(late[|early|], s, before.Controller(s), before.RowsOf(s))
    else late == early
  }

  lemma MaintainedShows(db: Db, s: SystemId)
    requires Maintained(db, s)
    ensures ShowsThreat(db, s) <==> ComesWithinThreshold(db.Controller(s), db.RowsOf(s))
  {
    ThreatenedMeansWithinThreshold(db.Controller(s), db.RowsOf(s));
  }

  lemma RefreshesTell(db: Db, changed: Db, calls: seq<SystemId>, s: SystemId)
    requires Maintained(db, s) && changed.threats == db.threats && changed.outbox == db.outbox
    requires s !in calls ==> changed.Controller(s) == db.Controller(s) && changed.RowsOf(s) == db.RowsOf(s)
    ensures Tells(db, RefreshAll(changed, calls), s)
  {
    RefreshAllSeenBySystem(changed, calls, s);
    MaintainedShows(db, s);
    if s in calls {
      RefreshNames(changed, s);
      if ShowsThreat(db, s) {
        StaleRowIsComplete(db, s);
        RowNames(db.Controller(s), db.RowsOf(s));
      }
    }
  }

  lemma NewSystemTells(db: Db, t: SystemId, controller: Option<FactionId>, s: SystemId)
    requires Valid(db, AddSystem(t, controller))
    ensures Tells(db, db.(controlling := db.controlling[t := controller]), s)
  {
    var db' := db.(controlling := db.controlling[t := controller]);
    assert db'.RowsOf(s) == db.RowsOf(s);
    assert s == t ==> db.RowsOf(s) == map[];
  }

  lemma StatementTells(db: Db, statement: Statement, s: SystemId)
    requires Valid(db, statement) && Maintained(db, s)
    ensures Tells(db, Execute(db, statement), s)
  {
    match statement
    case WriteStates(rows, calls) =>
      if s !in calls {
        OthersUntouched(db, rows, calls, s);
      }
      RefreshesTell(db, db.(states := WriteRows(db.states, rows)), calls, s);
    case SetControllers(controllers, calls) =>
      OthersKeepTheirController(db, controllers, calls, s);
      RefreshesTell(db, db.(controlling := db.controlling + controllers), calls, s);
    case AddSystem(t, controller) =>
      NewSystemTells(db, t, controller, s);
  }

  ghost predicate TellsThroughout(db: Db, statements: seq<Statement>, last: Db, s: SystemId)
    requires History(db, statements, last)
    decreases statements
  {
    statements != [] ==>
      var next := Execute(db, statements[0]);
      Tells(db, next, s) && TellsThroughout(next, statements[1..], last, s)
  }

  lemma {:induction false} HistoryTells(db: Db, statements: seq<Statement>, last: Db, s: SystemId)
    requires History(db, statements, last) && Maintained(db, s)
    ensures TellsThroughout(db, statements, last, s)
    decreases statements
  {
    if statements != [] {
      StatementTells(db, statements[0], s);
      ExecuteMaintains(db, statements[0], s);
      HistoryTells(Execute(db, statements[0]), statements[1..], last, s);
    }
  }

  /** Over every history of statements from empty tables: a statement announces `entered` exactly if it brings the first
      challenger within the threshold, naming the controlling faction, that challenger and the gap as they are then;
      it announces `cleared` exactly if it ends that, naming the two and the gap as they were before. */
  lemma EventsNameTheRightFactions(statements: seq<Statement>, last: Db, s: SystemId)
    requires History(EMPTY, statements, last)
    ensures TellsThroughout(EMPTY, statements, last, s)
    ensures s in last.threats ==>
              var row := last.threats[s];
              && Names(row.factionId, row.challengerFactionId, row.gap, last.Controller(s), last.RowsOf(s))
              && (row.isThreatened <==> ComesWithinThreshold(last.Controller(s), last.RowsOf(s)))
    ensures s !in last.threats ==> last.RowsOf(s) == map[]
  {
    assert EMPTY.RowsOf(s) == map[];
    HistoryTells(EMPTY, statements, last, s);
    HistoryMaintains(EMPTY, statements, last, s);
    RowNames(last.Controller(s), last.RowsOf(s));
    ThreatenedMeansWithinThreshold(last.Controller(s), last.RowsOf(s));
  }

  // ---------------------------------------------------------------- when a threat is cleared

  /** A refresh announces `cleared` exactly if the system was threatened and no challenger comes within the threshold of
      its controlling faction any more, for whatever reason; the gap it carries is the one stored before, if any. */
  lemma ClearedWhen(db: Db, s: SystemId)
    ensures var events := EventsFor(s, db.Threat(s), Fresh(db, s));
            && ((exists e :: e in events && e.status == Cleared)
                <==> ShowsThreat(db, s) && !ComesWithinThreshold(db.Controller(s), db.RowsOf(s)))
            && (forall e | e in events && e.status == Cleared && db.threats[s].gap.Some? :: e.gap == db.threats[s].gap)
  {
    ThreatenedMeansWithinThreshold(db.Controller(s), db.RowsOf(s));
    var events := EventsFor(s, db.Threat(s), Fresh(db, s));
    assert events != [] ==> events[0] in events;
  }

  lemma OneCall(db: Db, s: SystemId)
    ensures RefreshAll(db, [s]) == Refresh(db, s)
  {
    assert [s][..0] == [];
    assert RefreshAll(db, []) == db;
  }

  /** The first refresh of a system whose rows 1 and 2 are close. */
  lemma BecomesThreatened(db: Db, leader: StateRow, rival: StateRow)
    requires leader.influence == 0.5 && rival.influence == 0.45
    requires db.Controller(0) == Some(1) && db.RowsOf(0) == map[1 := leader, 2 := rival] && 0 !in db.threats
    ensures Refresh(db, 0) == db.(threats := db.threats[0 := ThreatRow(Some(1), Some(2), Some(0.05), true)],
                                  outbox := db.outbox + [ThreatEvent(0, Some(1), Entered, Some(2), Some(0.05))])
  {
    CloseRows(leader, rival);
  }

  lemma CloseRows(leader: StateRow, rival: StateRow)
    requires leader.influence == 0.5 && rival.influence == 0.45
    ensures Recompute(Some(1), map[1 := leader, 2 := rival]) == ThreatRow(Some(1), Some(2), Some(0.05), true)
  {
    var rivals := map[1 := leader, 2 := rival] - {1};
    assert rivals == map[2 := rival];
    TopIsUnique(rivals, 2);
  }

  lemma LosesItsController(db: Db, controller: FactionId)
    requires db.Controller(0) == Some(controller) && controller !in db.RowsOf(0)
    requires 0 in db.threats && db.threats[0] == ThreatRow(Some(1), Some(2), Some(0.05), true)
    ensures Refresh(db, 0) == db.(threats := db.threats[0 := ThreatRow(Some(controller), None, None, false)],
                                  outbox := db.outbox + [ThreatEvent(0, Some(1), Cleared, Some(2), Some(0.05))])
  {
  }

  /** The influences never change here and the gap never rises: a new controlling faction without a row in the system
      is enough to clear the threat. */
  lemma ClearedWithoutARise(leader: StateRow, rival: StateRow)
    returns (statements: seq<Statement>, threatened: Db, last: Db)
    requires leader.influence == 0.5 && rival.influence == 0.45
    ensures statements != [] && History(EMPTY, statements[..|statements| - 1], threatened)
            && History(EMPTY, statements, last)
    ensures ShowsThreat(threatened, 0) && !ShowsThreat(last, 0) && last.states == threatened.states
    ensures last.outbox == [ThreatEvent(0, Some(1), Entered, Some(2), Some(0.05)),
                            ThreatEvent(0, Some(1), Cleared, Some(2), Some(0.05))]
  {
    var db1 := EMPTY.(controlling := map[0 := Some(1)]);
    assert Execute(EMPTY, AddSystem(0, Some(1))) == db1;
    var write;
    write, threatened := WritesCloseRows(db1, leader, rival);
    var update;
    update, last := ChangesController(threatened, leader, rival);
    statements := ThreeStatements(EMPTY, AddSystem(0, Some(1)), db1, write, threatened, update, last);
  }

  lemma ThreeStatements(a: Db, s: Statement, b: Db, t: Statement, c: Db, u: Statement, d: Db)
    returns (statements: seq<Statement>)
    requires Valid(a, s) && Execute(a, s) == b && Valid(b, t) && Execute(b, t) == c && Valid(c, u) && Execute(c, u) == d
    ensures |statements| == 3 && History(a, statements[..2], c) && History(a, statements, d)
  {
    OneStatement(a, s);
    OneStatement(b, t);
    OneStatement(c, u);
    HistoryAppend(a, [s], b, [t], c);
    HistoryAppend(a, [s] + [t], c, [u], d);
    statements := [s] + [t] + [u];
    assert statements[..2] == [s] + [t];
  }

  lemma WritesCloseRows(db: Db, leader: StateRow, rival: StateRow) returns (write: Statement, after: Db)
    requires db == EMPTY.(controlling := map[0 := Some(1)]) && leader.influence == 0.5 && rival.influence == 0.45
    ensures Valid(db, write) && after == Execute(db, write)
    ensures after == Db(map[0 := Some(1)], map[RowKey(0, 1) := leader, RowKey(0, 2) := rival],
                        map[0 := ThreatRow(Some(1), Some(2), Some(0.05), true)],
                        [ThreatEvent(0, Some(1), Entered, Some(2), Some(0.05))])
  {
    var rows := map[RowKey(0, 1) := Some(leader), RowKey(0, 2) := Some(rival)];
    write := WriteStates(rows, [0]);
    OneSystemWritten(db, leader, rival);
    after := Execute(db, write);
    var changed := db.(states := map[RowKey(0, 1) := leader, RowKey(0, 2) := rival]);
    RowsOfTwo(changed, leader, rival);
    BecomesThreatened(changed, leader, rival);
  }

  lemma OneSystemWritten(db: Db, leader: StateRow, rival: StateRow)
    requires db.states == map[] && 0 in db.controlling
    ensures var write := WriteStates(map[RowKey(0, 1) := Some(leader), RowKey(0, 2) := Some(rival)], [0]);
            && Valid(db, write)
            && Execute(db, write) == Refresh(db.(states := map[RowKey(0, 1) := leader, RowKey(0, 2) := rival]), 0)
  {
    var rows := map[RowKey(0, 1) := Some(leader), RowKey(0, 2) := Some(rival)];
    assert RowKey(0, 1) in rows && AffectedSystems(rows) == {0} && Called([0]) == {0};
    assert WriteRows(db.states, rows) == map[RowKey(0, 1) := leader, RowKey(0, 2) := rival];
    OneCall(db.(states := WriteRows(db.states, rows)), 0);
  }

  lemma RowsOfTwo(db: Db, leader: StateRow, rival: StateRow)
    requires db.states == map[RowKey(0, 1) := leader, RowKey(0, 2) := rival]
    ensures db.RowsOf(0) == map[1 := leader, 2 := rival]
  {
    assert RowKey(0, 1) in db.states && RowKey(0, 2) in db.states;
    assert 1 in db.RowsOf(0) && 2 in db.RowsOf(0);
  }

  lemma ChangesController(db: Db, leader: StateRow, rival: StateRow) returns (update: Statement, after: Db)
    requires db.controlling == map[0 := Some(1)] && db.states == map[RowKey(0, 1) := leader, RowKey(0, 2) := rival]
    requires 0 in db.threats && db.threats[0] == ThreatRow(Some(1), Some(2), Some(0.05), true)
    ensures Valid(db, update) && after == Execute(db, update)
    ensures after.states == db.states && 0 in after.threats && !after.threats[0].isThreatened
    ensures after.outbox == db.outbox + [ThreatEvent(0, Some(1), Cleared, Some(2), Some(0.05))]
  {
    update := SetControllers(map[0 := Some(3)], [0]);
    assert ChangedSystems(db, map[0 := Some(3)]) == {0} && Called([0]) == {0};
    after := Execute(db, update);
    var changed := db.(controlling := db.controlling + map[0 := Some(3)]);
    RowsOfTwo(changed, leader, rival);
    OneCall(changed, 0);
    LosesItsController(changed, 3);
  }

  lemma LastOfAlternating(events: seq<ThreatEvent>)
    requires Alternates(events)
    ensures |events| % 2 == 1 <==> events != [] && events[|events| - 1].status == Entered
  {
    if events != [] {
      assert events[|events| - 1].status == if (|events| - 1) % 2 == 0 then Entered else Cleared;
    }
  }
}
