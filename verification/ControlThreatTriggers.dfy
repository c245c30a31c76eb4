/** The trigger procedures that maintain the control threat table, statement by statement, each proved to do what
    `ControlThreat` says. The refresh was first called once per changed row and later once per affected system. */
module ControlThreatTriggers {
  import opened Collections
  import opened Galaxy
  import opened ControlThreat

  function Written(rows: map<RowKey, StateRow>): map<RowKey, Option<StateRow>> { map k | k in rows :: Some(rows[k]) }

  function SystemsOf(rows: map<RowKey, StateRow>): set<SystemId> { set k | k in rows :: k.system }

  lemma UpsertIsOneStatement(db: Db, inserted: map<RowKey, StateRow>, updated: map<RowKey, StateRow>,
                             first: seq<SystemId>, second: seq<SystemId>)
    requires Fires(first, SystemsOf(inserted)) && Fires(second, SystemsOf(updated))
    ensures WriteRows(db.states, Written(inserted + updated)) == db.states + inserted + updated
    ensures Fires(first + second, AffectedSystems(Written(inserted + updated)))
  {
    var rows := Written(inserted + updated);
    assert Called(first + second) == Called(first) + Called(second);
    forall s ensures s in AffectedSystems(rows) <==> s in SystemsOf(inserted) + SystemsOf(updated) {
      if k :| k in inserted && k.system == s {
        assert k in rows;
      } else if k :| k in updated && k.system == s {
        assert k in rows;
      }
    }
    assert AffectedSystems(rows) == SystemsOf(inserted) + SystemsOf(updated);
  }

  lemma {:induction false} RefreshAllAppend(db: Db, a: seq<SystemId>, b: seq<SystemId>)
    ensures RefreshAll(db, a + b) == RefreshAll(RefreshAll(db, a), b)
  {
    if b == [] {
      assert a + b == a;
    } else {
      RefreshAllAppend(db, a, b[..|b| - 1]);
      FrontOfAppend(a, b);
    }
  }

  lemma OneMoreCall(db: Db, calls: seq<SystemId>, systems: set<SystemId>, s: SystemId)
    requires Fires(calls, systems)
    ensures Fires(calls + [s], systems + {s})
    ensures RefreshAll(db, calls + [s]) == Refresh(RefreshAll(db, calls), s)
  {
    assert (calls + [s])[..|calls|] == calls;
    assert Called(calls + [s]) == Called(calls) + {s};
  }

  lemma OneMoreRow(rows: set<RowKey>, todo: set<RowKey>, k: RowKey)
    requires todo <= rows && k in todo
    ensures (set j | j in rows - (todo - {k}) :: j.system) == (set j | j in rows - todo :: j.system) + {k.system}
  {
    assert rows - (todo - {k}) == rows - todo + {k};
    assert forall j | j in rows - todo + {k} :: j in rows - todo || j == k;
  }

  lemma SomethingCalled(calls: seq<SystemId>)
    requires calls != []
    ensures Called(calls) != {}
  {
    assert calls[0] in Called(calls);
  }

  lemma NoCalls(calls: seq<SystemId>)
    requires Fires(calls, {})
    ensures calls == []
  {
    if calls != [] {
      SomethingCalled(calls);
    }
  }

  lemma ControllerStatement(db: Db, s: SystemId, controller: Option<FactionId>)
    requires s in db.controlling
    ensures var changed, calls := db.(controlling := db.controlling[s := controller]),
                                  if db.controlling[s] != controller then [s] else [];
            && Valid(db, SetControllers(map[s := controller], calls))
            && Execute(db, SetControllers(map[s := controller], calls)) ==
                 if calls == [] then changed else Refresh(changed, s)
  {
    assert ChangedSystems(db, map[s := controller]) == if db.controlling[s] != controller then {s} else {};
    MapPlusOne(db.controlling, s, controller);
    OneMoreCall(db.(controlling := db.controlling[s := controller]), [], {}, s);
    assert [] + [s] == [s];
  }

  /** Setting the controller that is there already changes nothing. */
  lemma ExecuteSame(db: Db, s: SystemId, controller: Option<FactionId>, calls: seq<SystemId>)
    requires s in db.controlling && db.controlling[s] == controller
             && Valid(db, SetControllers(map[s := controller], calls))
    ensures calls == [] && db.(controlling := db.controlling + map[s := controller]) == db
  {
    assert ChangedSystems(db, map[s := controller]) == {};
    NoCalls(calls);
    MapPlusOne(db.controlling, s, controller);
  }

  lemma ExecuteSets(db: Db, s: SystemId, controller: Option<FactionId>, calls: seq<SystemId>)
    requires s in db.controlling && Valid(db, SetControllers(map[s := controller], calls))
    ensures var db' := Execute(db, SetControllers(map[s := controller], calls));
            && db'.states == db.states && db'.controlling == db.controlling[s := controller]
            && (db.controlling[s] == controller ==> db' == db)
  {
    RefreshAllSeenBySystem(db.(controlling := db.controlling + map[s := controller]), calls, s);
    MapPlusOne(db.controlling, s, controller);
    if db.controlling[s] == controller {
      ExecuteSame(db, s, controller, calls);
    }
  }

  lemma ExecuteWrites(db: Db, rows: map<RowKey, Option<StateRow>>, calls: seq<SystemId>)
    requires Valid(db, WriteStates(rows, calls))
    ensures Execute(db, WriteStates(rows, calls)).states == WriteRows(db.states, rows)
    ensures Execute(db, WriteStates(rows, calls)).controlling == db.controlling
    ensures rows == map[] ==> Execute(db, WriteStates(rows, calls)) == db
  {
    RefreshAllSeenBySystem(db.(states := WriteRows(db.states, rows)), calls, 0);
    if rows == map[] {
      assert AffectedSystems(rows) == {};
      NoCalls(calls);
      assert WriteRows(db.states, rows) == db.states;
    }
  }

  class ThreatTables {
    var controlling: map<SystemId, Option<FactionId>>
    var states: map<RowKey, StateRow>
    var threats: map<SystemId, ThreatRow>
    var outbox: seq<ThreatEvent>

    constructor ()
      ensures View() == EMPTY
    {
      controlling, states, threats, outbox := map[], map[], map[], [];
    }

    function View(): Db
      reads this
    {
      Db(controlling, states, threats, outbox)
    }

    /** The first row of another faction in the refresh's order. */
    method FirstChallenger(s: SystemId, controller: FactionId) returns (challenger: Option<FactionId>)
      ensures challenger == Top(View().RowsOf(s) - {controller})
    {
      var rows := View().RowsOf(s) - {controller};
      challenger := None;
      var todo := rows.Keys;
      while todo != {}
        invariant todo <= rows.Keys
        invariant challenger.None? ==> todo == rows.Keys
        invariant challenger.Some? ==> challenger.value in rows.Keys - todo
        invariant challenger.Some? ==>
                    forall g | g in rows && g !in todo && g != challenger.value ::
                      RanksBefore(challenger.value, rows[challenger.value], g, rows[g])
        decreases todo
      {
        var g :| g in todo;
        if challenger.None? || RanksBefore(g, rows[g], challenger.value, rows[challenger.value]) {
          challenger := Some(g);
        }
        todo := todo - {g};
      }
      if challenger.Some? {
        TopIsUnique(rows, challenger.value);
      } else {
        assert rows == map[];
      }
    }

    method RefreshSystem(s: SystemId)
      modifies this`threats, this`outbox
      ensures View() == Refresh(old(View()), s)
    {
      var previous := View().Threat(s);
      var controller := View().Controller(s);
      var controllerInfluence: Option<real> := None;
      if controller.Some? && RowKey(s, controller.value) in states {
        controllerInfluence := Some(states[RowKey(s, controller.value)].influence);
      }
      assert controllerInfluence.Some? <==> controller.Some? && controller.value in View().RowsOf(s);
      var challenger: Option<FactionId> := None;
      if controller.Some? && controllerInfluence.Some? {
        challenger := FirstChallenger(s, controller.value);
      }
      var gap: Option<real> := None;
      var isThreatened := false;
      if controllerInfluence.Some? && challenger.Some? {
        assert challenger.value in View().RowsOf(s);
        gap := Some(controllerInfluence.value - states[RowKey(s, challenger.value)].influence);
        isThreatened := gap.value <= THRESHOLD;
      }
      var row := ThreatRow(controller, challenger, gap, isThreatened);
      assert row == Fresh(View(), s);
      if previous.None? {
        threats := threats[s := row];
        if isThreatened {
          outbox := outbox + [ThreatEvent(s, controller, Entered, challenger, gap)];
        }
        return;
      }
      if previous.value.isThreatened != isThreatened {
        if isThreatened {
          outbox := outbox + [ThreatEvent(s, controller, Entered, challenger, gap)];
        } else {
          var faction := if previous.value.factionId.Some? then previous.value.factionId else controller;
          var rival :=
            if previous.value.challengerFactionId.Some? then previous.value.challengerFactionId else challenger;
          var shown :=
            if previous.value.gap.Some? then previous.value.gap else if gap.Some? then gap else Some(THRESHOLD);
          outbox := outbox + [ThreatEvent(s, faction, Cleared, rival, shown)];
        }
      }
      threats := threats[s := row];
    }

    /** The statement-level trigger: one refresh for each distinct affected system. */
    method RefreshAffected(affected: set<SystemId>) returns (ghost calls: seq<SystemId>)
      modifies this`threats, this`outbox
      ensures View() == RefreshAll(old(View()), calls) && Fires(calls, affected) && |calls| == |affected|
    {
      calls := [];
      var todo := affected;
      while todo != {}
        invariant todo <= affected && View() == RefreshAll(old(View()), calls)
        invariant Fires(calls, affected - todo) && |calls| == |affected| - |todo|
        decreases todo
      {
        var s :| s in todo;
        RefreshSystem(s);
        OneMoreCall(old(View()), calls, affected - todo, s);
        assert affected - (todo - {s}) == affected - todo + {s};
        todo, calls := todo - {s}, calls + [s];
      }
    }

    /** The original row-level trigger: one refresh for each row of the statement. */
    method RefreshPerRow(rows: set<RowKey>) returns (ghost calls: seq<SystemId>)
      modifies this`threats, this`outbox
      ensures View() == RefreshAll(old(View()), calls) && Fires(calls, set k | k in rows :: k.system)
              && |calls| == |rows|
    {
      calls := [];
      var todo := rows;
      while todo != {}
        invariant todo <= rows && View() == RefreshAll(old(View()), calls)
        invariant Fires(calls, set k | k in rows - todo :: k.system) && |calls| == |rows| - |todo|
        decreases todo
      {
        var k :| k in todo;
        RefreshSystem(k.system);
        ghost var done := set j | j in rows - todo :: j.system;
        OneMoreCall(old(View()), calls, done, k.system);
        OneMoreRow(rows, todo, k);
        todo, calls := todo - {k}, calls + [k.system];
      }
    }

    /** A statement on the faction states with the trigger of today. */
    method WriteFactionStates(rows: map<RowKey, Option<StateRow>>) returns (ghost calls: seq<SystemId>)
      requires forall k | k in rows :: k.system in controlling && (rows[k].None? ==> k in states)
      modifies this
      ensures Valid(old(View()), WriteStates(rows, calls))
      ensures View() == Execute(old(View()), WriteStates(rows, calls)) && |calls| == |AffectedSystems(rows)|
    {
      states := WriteRows(states, rows);
      calls := RefreshAffected(AffectedSystems(rows));
    }

    /** The same statement with the trigger it replaced. */
    method WriteFactionStatesPerRow(rows: map<RowKey, Option<StateRow>>) returns (ghost calls: seq<SystemId>)
      requires forall k | k in rows :: k.system in controlling && (rows[k].None? ==> k in states)
      modifies this
      ensures Valid(old(View()), WriteStates(rows, calls))
      ensures View() == Execute(old(View()), WriteStates(rows, calls)) && |calls| == |rows|
    {
      states := WriteRows(states, rows);
      calls := RefreshPerRow(rows.Keys);
      assert AffectedSystems(rows) == set k | k in rows.Keys :: k.system;
    }

    /** An upsert fires both the insert and the update trigger, each for the rows it wrote. */
    method UpsertFactionStates(inserted: map<RowKey, StateRow>, updated: map<RowKey, StateRow>)
      returns (ghost calls: seq<SystemId>)
      requires forall k | k in inserted.Keys + updated.Keys :: k.system in controlling
      modifies this
      ensures Valid(old(View()), WriteStates(Written(inserted + updated), calls))
      ensures View() == Execute(old(View()), WriteStates(Written(inserted + updated), calls))
      ensures states == old(states) + inserted + updated && controlling == old(controlling)
      ensures inserted == map[] && updated == map[] ==> View() == old(View())
    {
      states := states + inserted + updated;
      ghost var changed := View();
      ghost var first := RefreshAffected(SystemsOf(inserted));
      ghost var second := RefreshAffected(SystemsOf(updated));
      calls := first + second;
      RefreshAllAppend(changed, first, second);
      UpsertIsOneStatement(old(View()), inserted, updated, first, second);
      RefreshAllSeenBySystem(changed, calls, 0);
    }

    method UpdateController(s: SystemId, controller: Option<FactionId>) returns (ghost calls: seq<SystemId>)
      requires s in controlling
      modifies this
      ensures Valid(old(View()), SetControllers(map[s := controller], calls))
      ensures View() == Execute(old(View()), SetControllers(map[s := controller], calls))
    {
      calls := [];
      var distinct := controlling[s] != controller;
      ControllerStatement(View(), s, controller);
      controlling := controlling[s := controller];
      if distinct {
        RefreshSystem(s);
        calls := [s];
      }
    }

    // -------------------------------------------------------------- the same as histories of one statement

    method DeleteRows(keys: set<RowKey>) returns (ghost statements: seq<Statement>)
      requires keys <= states.Keys && forall k | k in keys :: k.system in controlling
      modifies this
      ensures History(old(View()), statements, View())
      ensures states == old(states) - keys && controlling == old(controlling)
      ensures keys == {} ==> View() == old(View())
    {
      var rows: map<RowKey, Option<StateRow>> := map k | k in keys :: None;
      ghost var calls := WriteFactionStates(rows);
      statements := [WriteStates(rows, calls)];
      OneStatement(old(View()), statements[0]);
      ExecuteWrites(old(View()), rows, calls);
    }

    method UpsertRows(inserted: map<RowKey, StateRow>, updated: map<RowKey, StateRow>)
      returns (ghost statements: seq<Statement>)
      requires forall k | k in inserted.Keys + updated.Keys :: k.system in controlling
      modifies this
      ensures History(old(View()), statements, View())
      ensures states == old(states) + inserted + updated && controlling == old(controlling)
      ensures inserted == map[] && updated == map[] ==> View() == old(View())
    {
      ghost var calls := UpsertFactionStates(inserted, updated);
      statements := [WriteStates(Written(inserted + updated), calls)];
      OneStatement(old(View()), statements[0]);
    }

    method SetController(s: SystemId, controller: Option<FactionId>) returns (ghost statements: seq<Statement>)
      requires s in controlling
      modifies this
      ensures History(old(View()), statements, View())
      ensures states == old(states) && controlling == old(controlling)[s := controller]
      ensures old(controlling[s]) == controller ==> View() == old(View())
    {
      ghost var calls := UpdateController(s, controller);
      statements := [SetControllers(map[s := controller], calls)];
      OneStatement(old(View()), statements[0]);
      ExecuteSets(old(View()), s, controller, calls);
    }
  }

  /** The two triggers, for every statement and in whatever order they call: the same threat rows and, for each
      system, the same events. */
  lemma OptimisationPreservesMeaning(db: Db, rows: map<RowKey, Option<StateRow>>, perRow: seq<SystemId>,
                                     perSystem: seq<SystemId>)
    requires Valid(db, WriteStates(rows, perRow)) && Valid(db, WriteStates(rows, perSystem))
    ensures var before, after := Execute(db, WriteStates(rows, perRow)), Execute(db, WriteStates(rows, perSystem));
            && before.threats == after.threats && before.states == after.states
            && before.controlling == after.controlling
            && forall s :: EventsOf(before.outbox, s) == EventsOf(after.outbox, s)
  {
    var changed := db.(states := WriteRows(db.states, rows));
    forall s ensures s in perRow <==> s in perSystem {
      assert s in perRow <==> s in AffectedSystems(rows);
      assert s in perSystem <==> s in AffectedSystems(rows);
    }
    ScheduleDoesNotMatter(changed, perRow, perSystem);
    RefreshAllSeenBySystem(changed, perRow, 0);
    RefreshAllSeenBySystem(changed, perSystem, 0);
  }
}
