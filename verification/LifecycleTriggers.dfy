/** The row triggers that write lifecycle events, and the statements that fire them, each proved to be a run of
    the row changes of `LifecycleEvents`. */
module LifecycleTriggers {
  import opened Collections
  import opened Galaxy
  import opened LifecycleEvents

  lemma {:induction false} HistoryAppend(t: Tables, a: seq<Change>, mid: Tables, b: seq<Change>, last: Tables)
    requires History(t, a, mid) && History(mid, b, last)
    ensures History(t, a + b, last)
    decreases a
  {
    if a == [] {
      assert a + b == b;
    } else {
      HistoryAppend(Apply(t, a[0]), a[1..], mid, b, last);
      HistoryPrepend(Apply(t, a[0]), a[1..] + b, last, t, a[0]);
      Associative([a[0]], a[1..], b);
      assert [a[0]] + a[1..] == a;
    }
  }

  lemma HistoryOneMore(t: Tables, changes: seq<Change>, mid: Tables, change: Change)
    requires History(t, changes, mid) && Valid(mid, change)
    ensures History(t, changes + [change], Apply(mid, change))
  {
    assert [change][1..] == [];
    assert History(Apply(mid, change), [], Apply(mid, change));
    HistoryAppend(t, changes, mid, [change], Apply(mid, change));
  }

  lemma OneMoreWritten(states: map<RowKey, StateLists>, rows: map<RowKey, StateLists>, todo: set<RowKey>, key: RowKey)
    requires todo <= rows.Keys && key in todo
    ensures (states + (rows - todo))[key := rows[key]] == states + (rows - (todo - {key}))
  {
  }

  lemma QuietOneMore(changes: seq<Change>, change: Change)
    requires !OnConflicts(change)
    ensures Quiet(changes) ==> Quiet(changes + [change])
  {
  }

  lemma RemoveStatesOneMore(start: Tables, changes: seq<Change>, t: Tables, key: RowKey, events: StateEvents)
    requires History(start, changes, t) && key in t.states && IsLifecycle(events, key, t.states[key], NO_STATES)
    ensures History(start, changes + [RemoveStates(key, events)],
                    Tables(t.presence, t.states - {key}, t.conflicts, t.outbox + events.All()))
    ensures Quiet(changes) ==> Quiet(changes + [RemoveStates(key, events)])
  {
    QuietOneMore(changes, RemoveStates(key, events));
    HistoryOneMore(start, changes, t, RemoveStates(key, events));
  }

  lemma PutStatesOneMore(start: Tables, changes: seq<Change>, t: Tables, key: RowKey, after: StateLists,
                         events: StateEvents)
    requires History(start, changes, t) && IsLifecycle(events, key, t.States(key), after)
    ensures History(start, changes + [PutStates(key, after, events)],
                    Tables(t.presence, t.states[key := after], t.conflicts, t.outbox + events.All()))
    ensures Quiet(changes) ==> Quiet(changes + [PutStates(key, after, events)])
  {
    QuietOneMore(changes, PutStates(key, after, events));
    HistoryOneMore(start, changes, t, PutStates(key, after, events));
  }

  class LifecycleTables {
    var presence: set<RowKey>
    var states: map<RowKey, StateLists>
    var conflicts: map<RowId, Conflict>
    var outbox: seq<Event>

    constructor ()
      ensures View() == EMPTY
    {
      presence, states, conflicts, outbox := {}, map[], map[], [];
    }

    function View(): Tables
      reads this
    {
      Tables(presence, states, conflicts, outbox)
    }

    /** One loop of the procedure: an event for each state, in no particular order. */
    method Announce(key: RowKey, stateSet: set<State>, lifecycle: Lifecycle) returns (ghost events: seq<Event>)
      modifies this`outbox
      ensures outbox == old(outbox) + events && Announces(events, key, stateSet, lifecycle)
    {
      events := [];
      var todo := stateSet;
      while todo != {}
        invariant todo <= stateSet && outbox == old(outbox) + events
        invariant Announces(events, key, stateSet - todo, lifecycle)
        decreases todo
      {
        var state :| state in todo;
        outbox := outbox + [StateChanged(key, state, lifecycle)];
        AnnounceOneMore(events, key, stateSet - todo, lifecycle, state);
        events := events + [StateChanged(key, state, lifecycle)];
        assert stateSet - (todo - {state}) == stateSet - todo + {state};
        todo := todo - {state};
      }
      assert stateSet - todo == stateSet;
    }

    lemma AnnounceOneMore(events: seq<Event>, key: RowKey, done: set<State>, lifecycle: Lifecycle, state: State)
      requires Announces(events, key, done, lifecycle) && state !in done
      ensures Announces(events + [StateChanged(key, state, lifecycle)], key, done + {state}, lifecycle)
    {
      var longer := events + [StateChanged(key, state, lifecycle)];
      assert longer[|events|] == StateChanged(key, state, lifecycle);
      forall s | s in done + {state} ensures StateChanged(key, s, lifecycle) in longer {
        assert s in done ==> StateChanged(key, s, lifecycle) in events;
      }
    }

    method EmitStateLifecycle(key: RowKey, before: StateLists, after: StateLists) returns (ghost events: StateEvents)
      modifies this`outbox
      ensures outbox == old(outbox) + events.All() && IsLifecycle(events, key, before, after)
    {
      ghost var pending := Announce(key, after.PendingSet() - before.PendingSet(), Pending);
      ghost var active := Announce(key, after.ActiveSet() - before.ActiveSet(), Active);
      ghost var ended := Announce(key, EndedStates(before, after), Ended);
      events := StateEvents(pending, active, ended);
      Associative(old(outbox), pending, active);
      Associative(old(outbox), pending + active, ended);
    }

    method EmitConflictLifecycle(before: Option<Conflict>, after: Option<Conflict>)
      modifies this`outbox
      ensures outbox == old(outbox) + ConflictEvents(before, after)
    {
      var was := LifecycleOf(before);
      var now := LifecycleOf(after);
      var signatureChanged := before.Some? && after.Some?
        && (before.value.kind != after.value.kind || before.value.opponent != after.value.opponent);
      if was.Some? && (now.None? || signatureChanged || was != now) {
        outbox := outbox + [ConflictChanged(before.value.Key(), Ended)];
      }
      assert outbox == old(outbox) + EndingEvent(before, after);
      if now.Some? && (was.None? || signatureChanged || was != now) {
        outbox := outbox + [ConflictChanged(after.value.Key(), now.value)];
      }
      Associative(old(outbox), EndingEvent(before, after), StartingEvent(before, after));
    }

    // -------------------------------------------------------------- statements

    /** Insert the missing ones of the given rows. */
    method InsertPresence(keys: set<RowKey>) returns (ghost changes: seq<Change>)
      modifies this
      ensures History(old(View()), changes, View()) && Quiet(changes)
      ensures presence == old(presence) + keys && states == old(states) && conflicts == old(conflicts)
      ensures keys <= old(presence) ==> outbox == old(outbox)
    {
      changes := [];
      var todo := keys - presence;
      ghost var missing := todo;
      while todo != {}
        invariant todo <= missing && presence == old(presence) + (missing - todo)
        invariant states == old(states) && conflicts == old(conflicts)
        invariant todo == {} || missing != {}
        invariant missing == {} ==> outbox == old(outbox)
        invariant History(old(View()), changes, View()) && Quiet(changes)
        decreases todo
      {
        var key :| key in todo;
        changes := InsertPresenceRow(key, old(View()), changes);
        todo := todo - {key};
      }
    }

    method InsertPresenceRow(key: RowKey, ghost start: Tables, ghost changes: seq<Change>)
      returns (ghost longer: seq<Change>)
      requires History(start, changes, View()) && Quiet(changes) && key !in presence
      modifies this`presence, this`outbox
      ensures presence == old(presence) + {key} && History(start, longer, View()) && Quiet(longer)
    {
      HistoryOneMore(start, changes, View(), Enter(key));
      presence := presence + {key};
      outbox := outbox + [PresenceChanged(key, true)];
      longer := changes + [Enter(key)];
    }

    method DeletePresence(keys: set<RowKey>) returns (ghost changes: seq<Change>)
      requires keys <= presence
      modifies this
      ensures History(old(View()), changes, View()) && Quiet(changes)
      ensures presence == old(presence) - keys && states == old(states) && conflicts == old(conflicts)
      ensures keys == {} ==> outbox == old(outbox)
    {
      changes := [];
      var todo := keys;
      while todo != {}
        invariant todo <= keys && presence == old(presence) - (keys - todo)
        invariant states == old(states) && conflicts == old(conflicts)
        invariant keys == {} ==> outbox == old(outbox)
        invariant History(old(View()), changes, View()) && Quiet(changes)
        decreases todo
      {
        var key :| key in todo;
        changes := DeletePresenceRow(key, old(View()), changes);
        todo := todo - {key};
      }
    }

    method DeletePresenceRow(key: RowKey, ghost start: Tables, ghost changes: seq<Change>)
      returns (ghost longer: seq<Change>)
      requires History(start, changes, View()) && Quiet(changes) && key in presence
      modifies this`presence, this`outbox
      ensures presence == old(presence) - {key} && History(start, longer, View()) && Quiet(longer)
    {
      HistoryOneMore(start, changes, View(), Leave(key));
      presence := presence - {key};
      outbox := outbox + [PresenceChanged(key, false)];
      longer := changes + [Leave(key)];
    }

    method PutStateRows(rows: map<RowKey, StateLists>) returns (ghost changes: seq<Change>)
      modifies this
      ensures History(old(View()), changes, View()) && Quiet(changes)
      ensures states == old(states) + rows && presence == old(presence) && conflicts == old(conflicts)
      ensures rows == map[] ==> outbox == old(outbox)
    {
      changes := [];
      var todo := rows.Keys;
      while todo != {}
        invariant todo <= rows.Keys && presence == old(presence) && conflicts == old(conflicts)
        invariant states == old(states) + (rows - todo)
        invariant rows == map[] ==> outbox == old(outbox)
        invariant History(old(View()), changes, View()) && Quiet(changes)
        decreases todo
      {
        var key :| key in todo;
        changes := PutStateRow(key, rows[key], old(View()), changes);
        OneMoreWritten(old(states), rows, todo, key);
        todo := todo - {key};
      }
      assert rows - todo == rows;
    }

    method PutStateRow(key: RowKey, after: StateLists, ghost start: Tables, ghost changes: seq<Change>)
      returns (ghost longer: seq<Change>)
      requires History(start, changes, View())
      modifies this`states, this`outbox
      ensures states == old(states)[key := after] && History(start, longer, View())
              && (Quiet(changes) ==> Quiet(longer))
    {
      longer := EmitChanged(key, after, start, changes);
      states := states[key := after];
    }

    /** The events of a row about to be written. */
    method EmitChanged(key: RowKey, after: StateLists, ghost start: Tables, ghost changes: seq<Change>)
      returns (ghost longer: seq<Change>)
      requires History(start, changes, View())
      modifies this`outbox
      ensures History(start, longer, Tables(presence, states[key := after], conflicts, outbox))
              && (Quiet(changes) ==> Quiet(longer))
    {
      ghost var before := View();
      ghost var events := EmitStateLifecycle(key, View().States(key), after);
      PutStatesOneMore(start, changes, before, key, after, events);
      longer := changes + [PutStates(key, after, events)];
    }

    method DeleteStateRows(keys: set<RowKey>) returns (ghost changes: seq<Change>)
      requires keys <= states.Keys
      modifies this
      ensures History(old(View()), changes, View()) && Quiet(changes)
      ensures states == old(states) - keys && presence == old(presence) && conflicts == old(conflicts)
      ensures keys == {} ==> outbox == old(outbox)
    {
      changes := [];
      var todo := keys;
      while todo != {}
        invariant todo <= keys && presence == old(presence) && conflicts == old(conflicts)
        invariant states == old(states) - (keys - todo)
        invariant keys == {} ==> outbox == old(outbox)
        invariant History(old(View()), changes, View()) && Quiet(changes)
        decreases todo
      {
        var key :| key in todo;
        changes := DeleteStateRow(key, old(View()), changes);
        todo := todo - {key};
      }
      assert keys - todo == keys;
    }

    method DeleteStateRow(key: RowKey, ghost start: Tables, ghost changes: seq<Change>)
      returns (ghost longer: seq<Change>)
      requires History(start, changes, View()) && key in states
      modifies this`states, this`outbox
      ensures states == old(states) - {key} && History(start, longer, View()) && (Quiet(changes) ==> Quiet(longer))
    {
      longer := EmitEnded(key, start, changes);
      states := states - {key};
    }

    /** The events of a row about to go. */
    method EmitEnded(key: RowKey, ghost start: Tables, ghost changes: seq<Change>) returns (ghost longer: seq<Change>)
      requires History(start, changes, View()) && key in states
      modifies this`outbox
      ensures History(start, longer, Tables(presence, states - {key}, conflicts, outbox))
              && (Quiet(changes) ==> Quiet(longer))
    {
      ghost var before := View();
      ghost var events := EmitStateLifecycle(key, states[key], NO_STATES);
      RemoveStatesOneMore(start, changes, before, key, events);
      longer := changes + [RemoveStates(key, events)];
    }

    method PutConflictRow(id: RowId, row: Conflict)
      requires Valid(View(), PutConflict(id, row))
      modifies this`conflicts, this`outbox
      ensures View() == Apply(old(View()), PutConflict(id, row))
      ensures old(View()).Row(id) == Some(row) ==> outbox == old(outbox)
    {
      EmitConflictLifecycle(View().Row(id), Some(row));
      conflicts := conflicts[id := row];
    }

    method DeleteConflictRows(ids: set<RowId>) returns (ghost changes: seq<Change>)
      requires ids <= conflicts.Keys && PairsUnique(conflicts)
      modifies this
      ensures Accepted(old(View()), changes, View())
      ensures conflicts == old(conflicts) - ids && presence == old(presence) && states == old(states)
      ensures ids == {} ==> outbox == old(outbox)
    {
      changes := [];
      var todo := ids;
      while todo != {}
        invariant todo <= ids && presence == old(presence) && states == old(states)
        invariant conflicts == old(conflicts) - (ids - todo)
        invariant ids == {} ==> outbox == old(outbox)
        invariant Accepted(old(View()), changes, View())
        decreases todo
      {
        var id :| id in todo;
        ghost var before := View();
        DeleteConflictRow(id);
        AcceptedOneMore(old(View()), changes, before, RemoveConflict(id));
        changes := changes + [RemoveConflict(id)];
        todo := todo - {id};
      }
      assert ids - todo == ids;
    }

    method DeleteConflictRow(id: RowId)
      requires id in conflicts
      modifies this`conflicts, this`outbox
      ensures View() == Apply(old(View()), RemoveConflict(id))
    {
      EmitConflictLifecycle(Some(conflicts[id]), None);
      conflicts := conflicts - {id};
    }
  }
}
