/** Lifecycle events that row triggers write to the outbox, and a consumer that rebuilds the tables from them. */
module LifecycleEvents {
  import opened Collections
  import opened Galaxy

  type RowId = nat
  type State = string
  type ConflictType = string

  datatype Lifecycle = Pending | Active | Ended

  datatype ConflictStatus = StatusPending | StatusActive | StatusConcluded

  datatype ConflictKey = ConflictKey(system: SystemId, faction: FactionId, opponent: Option<FactionId>,
                                     kind: ConflictType)

  datatype Event =
    | PresenceChanged(key: RowKey, entered: bool)
    | StateChanged(key: RowKey, state: State, lifecycle: Lifecycle)
    | ConflictChanged(conflict: ConflictKey, lifecycle: Lifecycle)

  // the two state arrays of a row that have a lifecycle
  datatype StateLists = StateLists(pending: seq<State>, active: seq<State>)
  {
    function PendingSet(): set<State> { set s | s in pending }

    function ActiveSet(): set<State> { set s | s in active }

    predicate Disjoint() { PendingSet() !! ActiveSet() }
  }

  const NO_STATES := StateLists([], [])

  datatype Conflict = Conflict(system: SystemId, faction: FactionId, opponent: Option<FactionId>, kind: ConflictType,
                               status: ConflictStatus)
  {
    function Key(): ConflictKey { ConflictKey(system, faction, opponent, kind) }

    function Lifecycle(): Option<Lifecycle> {
      match status
      case StatusPending => Some(Pending)
      case StatusActive => Some(Active)
      case StatusConcluded => None
    }

    predicate Open() { Lifecycle().Some? }
  }

  // ---------------------------------------------------------------- events of one row change

  /** `events` name each of `states` once, in some order. */
  predicate Announces(events: seq<Event>, key: RowKey, states: set<State>, lifecycle: Lifecycle) {
    && (forall i | 0 <= i < |events| ::
        events[i].StateChanged? && events[i].key == key && events[i].lifecycle == lifecycle)
    && (forall i | 0 <= i < |events| :: events[i].state in states)
    && (forall s | s in states :: StateChanged(key, s, lifecycle) in events)
    && |events| == |states|
  }

  // the new pending states, then the new active ones, then those in neither list any more
  datatype StateEvents = StateEvents(pending: seq<Event>, active: seq<Event>, ended: seq<Event>)
  {
    function All(): seq<Event> { pending + active + ended }
  }

  function EndedStates(before: StateLists, after: StateLists): set<State> {
    before.PendingSet() + before.ActiveSet() - (after.PendingSet() + after.ActiveSet())
  }

  predicate IsLifecycle(events: StateEvents, key: RowKey, before: StateLists, after: StateLists) {
    && Announces(events.pending, key, after.PendingSet() - before.PendingSet(), Pending)
    && Announces(events.active, key, after.ActiveSet() - before.ActiveSet(), Active)
    && Announces(events.ended, key, EndedStates(before, after), Ended)
  }

  function LifecycleOf(row: Option<Conflict>): Option<Lifecycle> { if row.Some? then row.value.Lifecycle() else None }

  /** The change of one row replaces what it announced before. */
  predicate Reannounced(before: Option<Conflict>, after: Option<Conflict>) {
    || (before.Some? && after.Some?
        && (before.value.kind != after.value.kind || before.value.opponent != after.value.opponent))
    || LifecycleOf(before) != LifecycleOf(after)
  }

  function EndingEvent(before: Option<Conflict>, after: Option<Conflict>): seq<Event> {
    if LifecycleOf(before).Some? && (LifecycleOf(after).None? || Reannounced(before, after))
    then [ConflictChanged(before.value.Key(), Ended)] else []
  }

  function StartingEvent(before: Option<Conflict>, after: Option<Conflict>): seq<Event> {
    if LifecycleOf(after).Some? && (LifecycleOf(before).None? || Reannounced(before, after))
    then [ConflictChanged(after.value.Key(), LifecycleOf(after).value)] else []
  }

  function ConflictEvents(before: Option<Conflict>, after: Option<Conflict>): seq<Event> {
    EndingEvent(before, after) + StartingEvent(before, after)
  }

  // ---------------------------------------------------------------- what the events say

  predicate Announced(events: seq<Event>, key: RowKey, x: State, lifecycle: Lifecycle) {
    StateChanged(key, x, lifecycle) in events
  }

  function Order(lifecycle: Lifecycle): nat { match lifecycle case Pending => 0 case Active => 1 case Ended => 2 }

  /** A state is announced as pending or active exactly if the row lists it so and did not before, and as ended exactly
      if it was listed and no longer is; each once, first the pending ones, then the active and then the ended. */
  lemma StateEventsSay(events: StateEvents, key: RowKey, before: StateLists, after: StateLists, x: State)
    requires IsLifecycle(events, key, before, after)
    ensures Announced(events.All(), key, x, Pending) <==> x in after.pending && x !in before.pending
    ensures Announced(events.All(), key, x, Active) <==> x in after.active && x !in before.active
    ensures Announced(events.All(), key, x, Ended) <==>
            (x in before.pending || x in before.active) && x !in after.pending && x !in after.active
    ensures forall i | 0 <= i < |events.All()| :: events.All()[i].StateChanged? && events.All()[i].key == key
    ensures forall i, j | 0 <= i < j < |events.All()| ::
              Order(events.All()[i].lifecycle) <= Order(events.All()[j].lifecycle)
    ensures |events.All()| == |after.PendingSet() - before.PendingSet()| + |after.ActiveSet() - before.ActiveSet()|
                              + |EndedStates(before, after)|
  {
    OneKind(events.pending, key, after.PendingSet() - before.PendingSet(), Pending, x);
    OneKind(events.active, key, after.ActiveSet() - before.ActiveSet(), Active, x);
    OneKind(events.ended, key, EndedStates(before, after), Ended, x);
  }

  lemma OneKind(events: seq<Event>, key: RowKey, states: set<State>, lifecycle: Lifecycle, x: State)
    requires Announces(events, key, states, lifecycle)
    ensures forall l :: Announced(events, key, x, l) <==> l == lifecycle && x in states
  {
    forall l ensures Announced(events, key, x, l) <==> l == lifecycle && x in states {
      if Announced(events, key, x, l) {
        var i :| 0 <= i < |events| && events[i] == StateChanged(key, x, l);
      }
    }
  }

  function EventAbout(c: Conflict, lifecycle: Lifecycle): Event {
    ConflictChanged(ConflictKey(c.system, c.faction, c.opponent, c.kind), lifecycle)
  }

  predicate Unconcluded(row: Option<Conflict>) { row.Some? && row.value.status != StatusConcluded }

  predicate Differs(before: Option<Conflict>, after: Option<Conflict>) {
    before.Some? && after.Some? ==>
      || before.value.kind != after.value.kind || before.value.opponent != after.value.opponent
      || before.value.status != after.value.status
  }

  /** The change of a conflict row ends what was pending or active before and announces what is so now, if it differs in
      its type, opponent or status. */
  lemma ConflictEventsSay(before: Option<Conflict>, after: Option<Conflict>)
    ensures var ends := Unconcluded(before) && (!Unconcluded(after) || Differs(before, after));
            var starts := Unconcluded(after) && (!Unconcluded(before) || Differs(before, after));
            ConflictEvents(before, after) ==
              (if ends then [EventAbout(before.value, Ended)] else [])
              + (if starts then
                   [EventAbout(after.value, if after.value.status == StatusPending then Pending else Active)]
                 else [])
  {
  }

  // ---------------------------------------------------------------- the consumer

  datatype Known = Known(pending: set<State>, active: set<State>)

  function Learn(known: Known, state: State, lifecycle: Lifecycle): Known {
    match lifecycle
    case Pending => Known(known.pending + {state}, known.active - {state})
    case Active => Known(known.pending - {state}, known.active + {state})
    case Ended => Known(known.pending - {state}, known.active - {state})
  }

  /** What a consumer knows about a faction in a system after the events. */
  function Rebuilt(start: Known, events: seq<Event>, key: RowKey): Known {
    if events == [] then start
    else
      var known, last := Rebuilt(start, events[..|events| - 1], key), events[|events| - 1];
      if last.StateChanged? && last.key == key then Learn(known, last.state, last.lifecycle) else known
  }

  const NOTHING := Known({}, {})

  function RebuiltPresence(events: seq<Event>): set<RowKey> {
    if events == [] then {}
    else
      var present, last := RebuiltPresence(events[..|events| - 1]), events[|events| - 1];
      if !last.PresenceChanged? then present
      else if last.entered then present + {last.key} else present - {last.key}
  }

  function RebuiltConflicts(start: map<ConflictKey, Lifecycle>, events: seq<Event>): map<ConflictKey, Lifecycle> {
    if events == [] then start
    else
      var open, last := RebuiltConflicts(start, events[..|events| - 1]), events[|events| - 1];
      if !last.ConflictChanged? then open
      else if last.lifecycle == Ended then open - {last.conflict} else open[last.conflict := last.lifecycle]
  }

  lemma {:induction false} RebuiltAppend(start: Known, a: seq<Event>, b: seq<Event>, key: RowKey)
    ensures Rebuilt(start, a + b, key) == Rebuilt(Rebuilt(start, a, key), b, key)
  {
    if b == [] {
      assert a + b == a;
    } else {
      RebuiltAppend(start, a, b[..|b| - 1], key);
      assert (a + b)[..|a + b| - 1] == a + b[..|b| - 1];
    }
  }

  lemma {:induction false} RebuiltConflictsAppend(start: map<ConflictKey, Lifecycle>, a: seq<Event>, b: seq<Event>)
    ensures RebuiltConflicts(start, a + b) == RebuiltConflicts(RebuiltConflicts(start, a), b)
  {
    if b == [] {
      assert a + b == a;
    } else {
      RebuiltConflictsAppend(start, a, b[..|b| - 1]);
      assert (a + b)[..|a + b| - 1] == a + b[..|b| - 1];
    }
  }

  lemma RebuiltPresenceOneMore(events: seq<Event>, key: RowKey, entered: bool)
    ensures RebuiltPresence(events + [PresenceChanged(key, entered)]) ==
              if entered then RebuiltPresence(events) + {key} else RebuiltPresence(events) - {key}
  {
    assert (events + [PresenceChanged(key, entered)])[..|events|] == events;
  }

  lemma {:induction false} RebuiltPresenceAppend(a: seq<Event>, b: seq<Event>)
    requires forall i | 0 <= i < |b| :: !b[i].PresenceChanged?
    ensures RebuiltPresence(a + b) == RebuiltPresence(a)
  {
    if b == [] {
      assert a + b == a;
    } else {
      RebuiltPresenceAppend(a, b[..|b| - 1]);
      assert (a + b)[..|a + b| - 1] == a + b[..|b| - 1];
    }
  }

  /** Events that concern other keys or other tables teach nothing about `key`. */
  lemma {:induction false} OthersTeachNothing(start: Known, events: seq<Event>, key: RowKey)
    requires forall i | 0 <= i < |events| :: !(events[i].StateChanged? && events[i].key == key)
    ensures Rebuilt(start, events, key) == start
  {
    if events != [] {
      OthersTeachNothing(start, events[..|events| - 1], key);
    }
  }

  function LearnAll(known: Known, states: set<State>, lifecycle: Lifecycle): Known {
    match lifecycle
    case Pending => Known(known.pending + states, known.active - states)
    case Active => Known(known.pending - states, known.active + states)
    case Ended => Known(known.pending - states, known.active - states)
  }

  /** In whatever order the states of one kind are announced, the consumer learns the same. */
  lemma {:induction false} AnnouncedAreLearned(start: Known, events: seq<Event>, key: RowKey, lifecycle: Lifecycle)
    requires forall i | 0 <= i < |events| ::
             events[i].StateChanged? && events[i].key == key && events[i].lifecycle == lifecycle
    ensures Rebuilt(start, events, key) == LearnAll(start, set i | 0 <= i < |events| :: events[i].state, lifecycle)
  {
    if events != [] {
      var front, last := events[..|events| - 1], events[|events| - 1];
      AnnouncedAreLearned(start, front, key, lifecycle);
      assert (set i | 0 <= i < |events| :: events[i].state) ==
        (set i | 0 <= i < |front| :: front[i].state) + {last.state};
    }
  }

  lemma AnnouncesIsLearned(start: Known, events: seq<Event>, key: RowKey, states: set<State>, lifecycle: Lifecycle)
    requires Announces(events, key, states, lifecycle)
    ensures Rebuilt(start, events, key) == LearnAll(start, states, lifecycle)
  {
    AnnouncedAreLearned(start, events, key, lifecycle);
    forall s | s in states ensures s in (set i | 0 <= i < |events| :: events[i].state) {
      var i :| 0 <= i < |events| && events[i] == StateChanged(key, s, lifecycle);
    }
    assert (set i | 0 <= i < |events| :: events[i].state) == states;
  }

  /** What the events of one row change make of what is known about the row. */
  function LearnChange(known: Known, before: StateLists, after: StateLists): Known {
    var first := LearnAll(known, after.PendingSet() - before.PendingSet(), Pending);
    var second := LearnAll(first, after.ActiveSet() - before.ActiveSet(), Active);
    LearnAll(second, EndedStates(before, after), Ended)
  }

  lemma LifecycleIsLearned(start: Known, events: StateEvents, key: RowKey, before: StateLists, after: StateLists)
    requires IsLifecycle(events, key, before, after)
    ensures Rebuilt(start, events.All(), key) == LearnChange(start, before, after)
  {
    RebuiltAppend(start, events.pending + events.active, events.ended, key);
    RebuiltAppend(start, events.pending, events.active, key);
    AnnouncesIsLearned(start, events.pending, key, after.PendingSet() - before.PendingSet(), Pending);
    var first := LearnAll(start, after.PendingSet() - before.PendingSet(), Pending);
    AnnouncesIsLearned(first, events.active, key, after.ActiveSet() - before.ActiveSet(), Active);
    var second := LearnAll(first, after.ActiveSet() - before.ActiveSet(), Active);
    AnnouncesIsLearned(second, events.ended, key, EndedStates(before, after), Ended);
  }

  lemma LearnNothing(known: Known, lists: StateLists)
    ensures LearnChange(known, lists, lists) == known
  {
    assert EndedStates(lists, lists) == {};
  }

  lemma UnionIsLearned(known: Known, before: StateLists, after: StateLists)
    requires known.pending + known.active == before.PendingSet() + before.ActiveSet()
    ensures var known' := LearnChange(known, before, after);
            known'.pending + known'.active == after.PendingSet() + after.ActiveSet()
  {
  }

  lemma BothAreLearned(known: Known, before: StateLists, after: StateLists)
    requires known == Known(before.PendingSet(), before.ActiveSet()) && before.Disjoint()
    ensures after.Disjoint() ==> LearnChange(known, before, after) == Known(after.PendingSet(), after.ActiveSet())
  {
    if after.Disjoint() {
      var known' := LearnChange(known, before, after);
      assert known'.pending == after.PendingSet();
      assert known'.active == after.ActiveSet();
    }
  }

  // ---------------------------------------------------------------- histories of row changes

  datatype Change =
    | PutStates(key: RowKey, after: StateLists, events: StateEvents)
    | RemoveStates(key: RowKey, events: StateEvents)
    | Enter(key: RowKey)
    | Leave(key: RowKey)
    | PutConflict(id: RowId, row: Conflict)
    | RemoveConflict(id: RowId)

  datatype Tables = Tables(
    presence: set<RowKey>,
    states: map<RowKey, StateLists>,
    conflicts: map<RowId, Conflict>,
    outbox: seq<Event>)
  {
    function States(key: RowKey): StateLists { if key in states then states[key] else NO_STATES }

    function Row(id: RowId): Option<Conflict> { if id in conflicts then Some(conflicts[id]) else None }
  }

  const EMPTY := Tables({}, map[], map[], [])

  predicate Valid(t: Tables, change: Change) {
    match change
    case PutStates(key, after, events) => IsLifecycle(events, key, t.States(key), after)
    case RemoveStates(key, events) => key in t.states && IsLifecycle(events, key, t.States(key), NO_STATES)
    case Enter(key) => key !in t.presence
    case Leave(key) => key in t.presence
    // an upsert finds the row by system, faction and opponent; the first two never change
    case PutConflict(id, row) =>
      id in t.conflicts ==> t.conflicts[id].system == row.system && t.conflicts[id].faction == row.faction
    case RemoveConflict(id) => id in t.conflicts
  }

  /** The events that the row's AFTER trigger writes. */
  function Emitted(t: Tables, change: Change): seq<Event> {
    match change
    case PutStates(_, _, events) => events.All()
    case RemoveStates(_, events) => events.All()
    case Enter(key) => [PresenceChanged(key, true)]
    case Leave(key) => [PresenceChanged(key, false)]
    case PutConflict(id, row) => ConflictEvents(t.Row(id), Some(row))
    case RemoveConflict(id) => ConflictEvents(t.Row(id), None)
  }

  function Apply(t: Tables, change: Change): Tables
    requires Valid(t, change)
  {
    var logged := t.(outbox := t.outbox + Emitted(t, change));
    match change
    case PutStates(key, after, _) => logged.(states := t.states[key := after])
    case RemoveStates(key, _) => logged.(states := t.states - {key})
    case Enter(key) => logged.(presence := t.presence + {key})
    case Leave(key) => logged.(presence := t.presence - {key})
    case PutConflict(id, row) => logged.(conflicts := t.conflicts[id := row])
    case RemoveConflict(id) => logged.(conflicts := t.conflicts - {id})
  }

  predicate History(t: Tables, changes: seq<Change>, last: Tables)
    decreases changes
  {
    if changes == [] then t == last
    else Valid(t, changes[0]) && History(Apply(t, changes[0]), changes[1..], last)
  }

  predicate OnlyStates(events: seq<Event>, key: RowKey) {
    forall i | 0 <= i < |events| :: events[i].StateChanged? && events[i].key == key
  }

  predicate OnlyConflicts(events: seq<Event>) { forall i | 0 <= i < |events| :: events[i].ConflictChanged? }

  lemma EmittedKind(t: Tables, change: Change)
    requires Valid(t, change)
    ensures change.PutStates? || change.RemoveStates? ==> OnlyStates(Emitted(t, change), change.key)
    ensures change.PutConflict? || change.RemoveConflict? ==> OnlyConflicts(Emitted(t, change))
  {
    match change
    case PutStates(key, after, events) => OnlyStatesInAll(events, key, t.States(key), after);
    case RemoveStates(key, events) => OnlyStatesInAll(events, key, t.States(key), NO_STATES);
    case _ =>
  }

  lemma OnlyStatesInAll(events: StateEvents, key: RowKey, before: StateLists, after: StateLists)
    requires IsLifecycle(events, key, before, after)
    ensures OnlyStates(events.All(), key)
  {
  }

  // ---------------------------------------------------------------- faction presence

  /** `entered` is announced exactly of a faction that was absent and is present now, and its opposite of one that
      left. */
  lemma PresenceEventsSay(t: Tables, change: Change, key: RowKey)
    requires Valid(t, change)
    ensures PresenceChanged(key, true) in Emitted(t, change) <==>
            key !in t.presence && key in Apply(t, change).presence
    ensures PresenceChanged(key, false) in Emitted(t, change) <==>
            key in t.presence && key !in Apply(t, change).presence
  {
    EmittedKind(t, change);
  }

  lemma PresenceFollows(t: Tables, change: Change)
    requires Valid(t, change) && RebuiltPresence(t.outbox) == t.presence
    ensures RebuiltPresence(Apply(t, change).outbox) == Apply(t, change).presence
  {
    var events := Emitted(t, change);
    EmittedKind(t, change);
    if change.Enter? || change.Leave? {
      RebuiltPresenceOneMore(t.outbox, change.key, change.Enter?);
    } else {
      RebuiltPresenceAppend(t.outbox, events);
    }
  }

  lemma {:induction false} PresenceRebuilds(t: Tables, changes: seq<Change>, last: Tables)
    requires RebuiltPresence(t.outbox) == t.presence && History(t, changes, last)
    ensures RebuiltPresence(last.outbox) == last.presence
    decreases changes
  {
    if changes != [] {
      PresenceFollows(t, changes[0]);
      PresenceRebuilds(Apply(t, changes[0]), changes[1..], last);
    }
  }

  // ---------------------------------------------------------------- faction states

  function KnownOf(t: Tables, key: RowKey): Known { Rebuilt(NOTHING, t.outbox, key) }

  predicate KnowsUnion(t: Tables, key: RowKey) {
    KnownOf(t, key).pending + KnownOf(t, key).active == t.States(key).PendingSet() + t.States(key).ActiveSet()
  }

  predicate KnowsBoth(t: Tables, key: RowKey) {
    KnownOf(t, key) == Known(t.States(key).PendingSet(), t.States(key).ActiveSet())
  }

  /** The effect of one change on what is known about one key. */
  lemma ChangeIsLearned(t: Tables, change: Change, key: RowKey)
    requires Valid(t, change)
    ensures KnownOf(Apply(t, change), key) == LearnChange(KnownOf(t, key), t.States(key), Apply(t, change).States(key))
  {
    RebuiltAppend(NOTHING, t.outbox, Emitted(t, change), key);
    if change.PutStates? && change.key == key {
      LifecycleIsLearned(KnownOf(t, key), change.events, key, t.States(key), change.after);
    } else if change.RemoveStates? && change.key == key {
      LifecycleIsLearned(KnownOf(t, key), change.events, key, t.States(key), NO_STATES);
    } else {
      OthersAreSilent(t, change, key);
      OthersTeachNothing(KnownOf(t, key), Emitted(t, change), key);
      LearnNothing(KnownOf(t, key), t.States(key));
    }
  }

  lemma OthersAreSilent(t: Tables, change: Change, key: RowKey)
    requires Valid(t, change) && !((change.PutStates? || change.RemoveStates?) && change.key == key)
    ensures forall i | 0 <= i < |Emitted(t, change)| ::
            !(Emitted(t, change)[i].StateChanged? && Emitted(t, change)[i].key == key)
    ensures Apply(t, change).States(key) == t.States(key)
  {
    EmittedKind(t, change);
  }

  lemma UnionFollows(t: Tables, change: Change, key: RowKey)
    requires Valid(t, change) && KnowsUnion(t, key)
    ensures KnowsUnion(Apply(t, change), key)
  {
    ChangeIsLearned(t, change, key);
    UnionIsLearned(KnownOf(t, key), t.States(key), Apply(t, change).States(key));
  }

  lemma {:induction false} UnionRebuilds(t: Tables, changes: seq<Change>, last: Tables, key: RowKey)
    requires KnowsUnion(t, key) && History(t, changes, last)
    ensures KnowsUnion(last, key)
    decreases changes
  {
    if changes != [] {
      UnionFollows(t, changes[0], key);
      UnionRebuilds(Apply(t, changes[0]), changes[1..], last, key);
    }
  }

  /** The events never tell a consumer that a state is pending and active at once. */
  lemma {:induction false} KnownIsDisjoint(events: seq<Event>, key: RowKey)
    ensures Rebuilt(NOTHING, events, key).pending !! Rebuilt(NOTHING, events, key).active
  {
    if events != [] {
      KnownIsDisjoint(events[..|events| - 1], key);
    }
  }

  lemma ChangeKeepsBoth(t: Tables, change: Change, key: RowKey)
    requires Valid(t, change) && KnowsBoth(t, key)
    ensures KnowsBoth(Apply(t, change), key) <==> Apply(t, change).States(key).Disjoint()
  {
    ChangeIsLearned(t, change, key);
    KnownIsDisjoint(t.outbox, key);
    KnownIsDisjoint(Apply(t, change).outbox, key);
    BothAreLearned(KnownOf(t, key), t.States(key), Apply(t, change).States(key));
  }

  /** No row of the key ever listed a state as pending and active at once. */
  predicate NeverOverlaps(changes: seq<Change>, key: RowKey) {
    forall i | 0 <= i < |changes| && changes[i].PutStates? && changes[i].key == key :: changes[i].after.Disjoint()
  }

  predicate KnowsBothThroughout(t: Tables, changes: seq<Change>, last: Tables, key: RowKey)
    requires History(t, changes, last)
    decreases changes
  {
    KnowsBoth(t, key) && (changes != [] ==> KnowsBothThroughout(Apply(t, changes[0]), changes[1..], last, key))
  }

  lemma NeverOverlapsStep(changes: seq<Change>, key: RowKey)
    requires changes != []
    ensures NeverOverlaps(changes, key) <==>
            NeverOverlaps(changes[1..], key)
              && (changes[0].PutStates? && changes[0].key == key ==> changes[0].after.Disjoint())
  {
    assert forall i | 1 <= i < |changes| :: changes[i] == changes[1..][i - 1];
    assert forall i | 0 <= i < |changes| - 1 :: changes[1..][i] == changes[i + 1];
  }

  lemma {:induction false} BothRebuildWithoutOverlap(t: Tables, changes: seq<Change>, last: Tables, key: RowKey)
    requires KnowsBoth(t, key) && History(t, changes, last)
    ensures KnowsBothThroughout(t, changes, last, key) <==> NeverOverlaps(changes, key)
    decreases changes
  {
    if changes != [] {
      var next := Apply(t, changes[0]);
      ChangeKeepsBoth(t, changes[0], key);
      KnownIsDisjoint(t.outbox, key);
      NeverOverlapsStep(changes, key);
      if KnowsBoth(next, key) {
        BothRebuildWithoutOverlap(next, changes[1..], last, key);
      }
    }
  }

  // ---------------------------------------------------------------- conflicts

  /** No two open conflicts share system, faction, opponent and type. */
  predicate OpenKeysUnique(conflicts: map<RowId, Conflict>) {
    forall i, j | i in conflicts && j in conflicts && conflicts[i].Open() && conflicts[j].Open()
                  && conflicts[i].Key() == conflicts[j].Key() :: i == j
  }

  /** The database's unique constraint; a missing opponent is distinct from every other one. */
  predicate PairsUnique(conflicts: map<RowId, Conflict>) {
    forall i, j | i in conflicts && j in conflicts && conflicts[i].system == conflicts[j].system
                  && conflicts[i].faction == conflicts[j].faction
                  && conflicts[i].opponent.Some? && conflicts[i].opponent == conflicts[j].opponent :: i == j
  }

  lemma OpponentsMakeKeysUnique(conflicts: map<RowId, Conflict>)
    requires PairsUnique(conflicts) && forall i | i in conflicts :: conflicts[i].opponent.Some?
    ensures OpenKeysUnique(conflicts)
  {
  }

  ghost predicate ConflictsMatch(known: map<ConflictKey, Lifecycle>, conflicts: map<RowId, Conflict>) {
    && (forall i | i in conflicts && conflicts[i].Open() ::
          conflicts[i].Key() in known && known[conflicts[i].Key()] == conflicts[i].Lifecycle().value)
    && (forall key | key in known :: exists i :: i in conflicts && conflicts[i].Open() && conflicts[i].Key() == key)
  }

  function OpenOf(t: Tables): map<ConflictKey, Lifecycle> { RebuiltConflicts(map[], t.outbox) }

  lemma {:induction false} NoConflictEvents(start: map<ConflictKey, Lifecycle>, events: seq<Event>)
    requires forall i | 0 <= i < |events| :: !events[i].ConflictChanged?
    ensures RebuiltConflicts(start, events) == start
  {
    if events != [] {
      NoConflictEvents(start, events[..|events| - 1]);
    }
  }

  /** What replaying the events of one conflict row's change amounts to: its old key goes, its new one comes. */
  function Replayed(start: map<ConflictKey, Lifecycle>, before: Option<Conflict>,
                    after: Option<Conflict>): map<ConflictKey, Lifecycle>
  {
    var left := if before.Some? && before.value.Open() then start - {before.value.Key()} else start;
    if after.Some? && after.value.Open() then left[after.value.Key() := after.value.Lifecycle().value] else left
  }

  predicate Records(start: map<ConflictKey, Lifecycle>, row: Option<Conflict>) {
    row.Some? && row.value.Open() ==> row.value.Key() in start && start[row.value.Key()] == row.value.Lifecycle().value
  }

  lemma ReplayOne(start: map<ConflictKey, Lifecycle>, e: Event)
    requires e.ConflictChanged?
    ensures RebuiltConflicts(start, [e]) ==
            if e.lifecycle == Ended then start - {e.conflict} else start[e.conflict := e.lifecycle]
  {
    assert [e][..0] == [];
  }

  lemma ConflictEventsReplayed(start: map<ConflictKey, Lifecycle>, before: Option<Conflict>, after: Option<Conflict>)
    requires Records(start, before)
    requires before.Some? && after.Some? ==>
             before.value.system == after.value.system && before.value.faction == after.value.faction
    ensures RebuiltConflicts(start, ConflictEvents(before, after)) == Replayed(start, before, after)
  {
    var ending, starting := EndingEvent(before, after), StartingEvent(before, after);
    RebuiltConflictsAppend(start, ending, starting);
    if ending != [] {
      ReplayOne(start, ending[0]);
    }
    if starting != [] {
      ReplayOne(RebuiltConflicts(start, ending), starting[0]);
    }
    if LifecycleOf(before).Some? && LifecycleOf(after).Some? && !Reannounced(before, after) {
      var key, lifecycle := before.value.Key(), LifecycleOf(before).value;
      assert after.value.Key() == key;
      assert (start - {key})[key := lifecycle] == start;
    }
  }

  /** What of a change of row `id` can be told before it is made: another open row under the key that the changed row
      gives up would be forgotten, and one under the key it takes must be in the same lifecycle. */
  predicate HarmlessFor(before: Option<Conflict>, after: Option<Conflict>, other: Conflict) {
    other.status != StatusConcluded ==>
      && (OpenAs(before, other) ==> OpenAs(after, other))
      && (OpenAs(after, other) ==> after.value.status == other.status)
  }

  /** The row is not concluded and is about the same factions and type in the same system. */
  predicate OpenAs(row: Option<Conflict>, other: Conflict) {
    && row.Some? && row.value.status != StatusConcluded && row.value.system == other.system
    && row.value.faction == other.faction && row.value.opponent == other.opponent && row.value.kind == other.kind
  }

  predicate Harmless(conflicts: map<RowId, Conflict>, id: RowId, after: Option<Conflict>) {
    forall j | j in conflicts && j != id :: HarmlessFor(RowOf(conflicts, id), after, conflicts[j])
  }

  function RowOf(conflicts: map<RowId, Conflict>, id: RowId): Option<Conflict> {
    if id in conflicts then Some(conflicts[id]) else None
  }

  function WithRow(conflicts: map<RowId, Conflict>, id: RowId, after: Option<Conflict>): map<RowId, Conflict> {
    if after.Some? then conflicts[id := after.value] else conflicts - {id}
  }

  predicate Contains(conflicts: map<RowId, Conflict>, i: RowId, key: ConflictKey) {
    i in conflicts && conflicts[i].Open() && conflicts[i].Key() == key
  }

  /** A key of the replay stands for some open row, without any condition. */
  lemma ReplayedKeyIsOpen(known: map<ConflictKey, Lifecycle>, conflicts: map<RowId, Conflict>, id: RowId,
                          after: Option<Conflict>, key: ConflictKey) returns (i: RowId)
    requires ConflictsMatch(known, conflicts) && key in Replayed(known, RowOf(conflicts, id), after)
    ensures Contains(WithRow(conflicts, id, after), i, key)
  {
    if after.Some? && after.value.Open() && after.value.Key() == key {
      i := id;
    } else {
      i :| i in conflicts && conflicts[i].Open() && conflicts[i].Key() == key;
    }
  }

  lemma ReplayedShowsRow(known: map<ConflictKey, Lifecycle>, conflicts: map<RowId, Conflict>, id: RowId,
                         after: Option<Conflict>, j: RowId)
    requires Records(known, RowOf(conflicts, j)) && j in conflicts && j != id
    ensures Records(Replayed(known, RowOf(conflicts, id), after), Some(conflicts[j]))
       <==> HarmlessFor(RowOf(conflicts, id), after, conflicts[j])
  {
  }

  lemma MatchRecords(known: map<ConflictKey, Lifecycle>, conflicts: map<RowId, Conflict>)
    requires ConflictsMatch(known, conflicts)
    ensures forall j | j in conflicts :: Records(known, Some(conflicts[j]))
  {
  }

  lemma RecordsMatch(known: map<ConflictKey, Lifecycle>, conflicts: map<RowId, Conflict>)
    requires forall j | j in conflicts :: Records(known, Some(conflicts[j]))
    requires forall key | key in known :: exists i :: Contains(conflicts, i, key)
    ensures ConflictsMatch(known, conflicts)
  {
    forall key | key in known ensures exists i :: i in conflicts && conflicts[i].Open() && conflicts[i].Key() == key {
      var i :| Contains(conflicts, i, key);
    }
  }

  /** Replaying the change of one row keeps the match exactly if the change is harmless. */
  lemma HarmlessIsExact(known: map<ConflictKey, Lifecycle>, conflicts: map<RowId, Conflict>, id: RowId,
                        after: Option<Conflict>)
    requires ConflictsMatch(known, conflicts)
    ensures ConflictsMatch(Replayed(known, RowOf(conflicts, id), after), WithRow(conflicts, id, after)) <==>
            Harmless(conflicts, id, after)
  {
    var known', conflicts' := Replayed(known, RowOf(conflicts, id), after), WithRow(conflicts, id, after);
    MatchRecords(known, conflicts);
    forall j | j in conflicts && j != id
      ensures Records(known', Some(conflicts[j])) <==> HarmlessFor(RowOf(conflicts, id), after, conflicts[j])
    {
      ReplayedShowsRow(known, conflicts, id, after, j);
    }
    if Harmless(conflicts, id, after) {
      forall key | key in known' ensures exists i :: Contains(conflicts', i, key) {
        var i := ReplayedKeyIsOpen(known, conflicts, id, after, key);
      }
      RecordsMatch(known', conflicts');
    }
    if ConflictsMatch(known', conflicts') {
      MatchRecords(known', conflicts');
      forall j | j in conflicts && j != id ensures HarmlessFor(RowOf(conflicts, id), after, conflicts[j]) {
        assert conflicts'[j] == conflicts[j];
      }
    }
  }

  predicate OnConflicts(change: Change) { change.PutConflict? || change.RemoveConflict? }

  function RowAfter(change: Change): Option<Conflict> { if change.PutConflict? then Some(change.row) else None }

  predicate HarmlessChange(t: Tables, change: Change) {
    OnConflicts(change) ==> Harmless(t.conflicts, change.id, RowAfter(change))
  }

  lemma OpenAfter(t: Tables, change: Change)
    requires Valid(t, change) && OnConflicts(change) && Records(OpenOf(t), t.Row(change.id))
    ensures OpenOf(Apply(t, change)) == Replayed(OpenOf(t), t.Row(change.id), RowAfter(change))
  {
    RebuiltConflictsAppend(map[], t.outbox, Emitted(t, change));
    ConflictEventsReplayed(OpenOf(t), t.Row(change.id), RowAfter(change));
  }

  lemma OtherChangesAreSilent(t: Tables, change: Change)
    requires Valid(t, change) && !OnConflicts(change)
    ensures OpenOf(Apply(t, change)) == OpenOf(t) && Apply(t, change).conflicts == t.conflicts
  {
    RebuiltConflictsAppend(map[], t.outbox, Emitted(t, change));
    EmittedKind(t, change);
    NoConflictEvents(OpenOf(t), Emitted(t, change));
  }

  ghost predicate HasConflict(conflicts: map<RowId, Conflict>, key: ConflictKey, status: ConflictStatus) {
    exists i :: i in conflicts && conflicts[i] == Conflict(key.system, key.faction, key.opponent, key.kind, status)
  }

  /** What is known of each conflict is what the rows' status says: pending, active, or nothing if all are concluded. */
  ghost predicate KnownByStatus(known: map<ConflictKey, Lifecycle>, conflicts: map<RowId, Conflict>) {
    forall key: ConflictKey ::
      && (key in known && known[key] == Pending <==> HasConflict(conflicts, key, StatusPending))
      && (key in known && known[key] == Active <==> HasConflict(conflicts, key, StatusActive))
      && (key !in known <==>
            !HasConflict(conflicts, key, StatusPending) && !HasConflict(conflicts, key, StatusActive))
  }

  lemma MatchIsByStatus(known: map<ConflictKey, Lifecycle>, conflicts: map<RowId, Conflict>)
    ensures ConflictsMatch(known, conflicts) <==> KnownByStatus(known, conflicts)
  {
    if ConflictsMatch(known, conflicts) {
      forall key: ConflictKey
        ensures key in known && known[key] == Pending <==> HasConflict(conflicts, key, StatusPending)
        ensures key in known && known[key] == Active <==> HasConflict(conflicts, key, StatusActive)
        ensures key !in known <==>
                !HasConflict(conflicts, key, StatusPending) && !HasConflict(conflicts, key, StatusActive)
      {
        KeyByStatus(known, conflicts, key);
      }
    }
    if KnownByStatus(known, conflicts) {
      StatusMatches(known, conflicts);
    }
  }

  lemma KeyByStatus(known: map<ConflictKey, Lifecycle>, conflicts: map<RowId, Conflict>, key: ConflictKey)
    requires ConflictsMatch(known, conflicts)
    ensures key in known && known[key] == Pending <==> HasConflict(conflicts, key, StatusPending)
    ensures key in known && known[key] == Active <==> HasConflict(conflicts, key, StatusActive)
    ensures key !in known <==>
            !HasConflict(conflicts, key, StatusPending) && !HasConflict(conflicts, key, StatusActive)
  {
    if key in known {
      var i :| i in conflicts && conflicts[i].Open() && conflicts[i].Key() == key;
      assert conflicts[i] == Conflict(key.system, key.faction, key.opponent, key.kind, conflicts[i].status);
    }
    forall i, status | i in conflicts && status != StatusConcluded
                       && conflicts[i] == Conflict(key.system, key.faction, key.opponent, key.kind, status)
      ensures key in known && known[key] == if status == StatusPending then Pending else Active
    {
      assert conflicts[i].Open() && conflicts[i].Key() == key;
    }
  }

  lemma StatusMatches(known: map<ConflictKey, Lifecycle>, conflicts: map<RowId, Conflict>)
    requires KnownByStatus(known, conflicts)
    ensures ConflictsMatch(known, conflicts)
  {
    forall i | i in conflicts && conflicts[i].Open()
      ensures conflicts[i].Key() in known && known[conflicts[i].Key()] == conflicts[i].Lifecycle().value
    {
      assert HasConflict(conflicts, conflicts[i].Key(), conflicts[i].status);
    }
    forall key | key in known ensures exists i :: i in conflicts && conflicts[i].Open() && conflicts[i].Key() == key {
      assert HasConflict(conflicts, key, StatusPending) || HasConflict(conflicts, key, StatusActive);
    }
  }

  /** The fold shows exactly the conflicts that are pending or active. */
  ghost predicate ConflictsKnown(t: Tables) { KnownByStatus(OpenOf(t), t.conflicts) }

  /** After any change the fold shows the open conflicts exactly if the change was harmless. */
  lemma ConflictsFollow(t: Tables, change: Change)
    requires Valid(t, change) && ConflictsKnown(t)
    ensures ConflictsKnown(Apply(t, change)) <==> HarmlessChange(t, change)
  {
    MatchIsByStatus(OpenOf(t), t.conflicts);
    MatchIsByStatus(OpenOf(Apply(t, change)), Apply(t, change).conflicts);
    if OnConflicts(change) {
      MatchRecords(OpenOf(t), t.conflicts);
      OpenAfter(t, change);
      HarmlessIsExact(OpenOf(t), t.conflicts, change.id, RowAfter(change));
    } else {
      OtherChangesAreSilent(t, change);
    }
  }

  predicate HarmlessThroughout(t: Tables, changes: seq<Change>, last: Tables)
    requires History(t, changes, last)
    decreases changes
  {
    changes != [] ==> HarmlessChange(t, changes[0]) && HarmlessThroughout(Apply(t, changes[0]), changes[1..], last)
  }

  ghost predicate ConflictsKnownThroughout(t: Tables, changes: seq<Change>, last: Tables)
    requires History(t, changes, last)
    decreases changes
  {
    ConflictsKnown(t) && (changes != [] ==> ConflictsKnownThroughout(Apply(t, changes[0]), changes[1..], last))
  }

  lemma {:induction false} ConflictsRebuild(t: Tables, changes: seq<Change>, last: Tables)
    requires ConflictsKnown(t) && History(t, changes, last)
    ensures ConflictsKnownThroughout(t, changes, last) <==> HarmlessThroughout(t, changes, last)
    decreases changes
  {
    if changes != [] {
      ConflictsFollow(t, changes[0]);
      if ConflictsKnown(Apply(t, changes[0])) {
        ConflictsRebuild(Apply(t, changes[0]), changes[1..], last);
      }
    }
  }

  lemma {:induction false} KnownAtTheEnd(t: Tables, changes: seq<Change>, last: Tables)
    requires History(t, changes, last) && ConflictsKnownThroughout(t, changes, last)
    ensures ConflictsKnown(last)
    decreases changes
  {
    if changes != [] {
      KnownAtTheEnd(Apply(t, changes[0]), changes[1..], last);
    }
  }

  /** The keys stayed unique after every change of the history. */
  predicate UniqueThroughout(t: Tables, changes: seq<Change>, last: Tables)
    requires History(t, changes, last)
    decreases changes
  {
    OpenKeysUnique(t.conflicts) && (changes != [] ==> UniqueThroughout(Apply(t, changes[0]), changes[1..], last))
  }

  lemma UniqueIsHarmless(t: Tables, change: Change)
    requires Valid(t, change) && OpenKeysUnique(t.conflicts) && OpenKeysUnique(Apply(t, change).conflicts)
    ensures HarmlessChange(t, change)
  {
    if OnConflicts(change) {
      assert Apply(t, change).conflicts == WithRow(t.conflicts, change.id, RowAfter(change));
      forall j | j in t.conflicts && j != change.id
        ensures HarmlessFor(RowOf(t.conflicts, change.id), RowAfter(change), t.conflicts[j])
      {
        UniqueIsHarmlessFor(t.conflicts, change.id, RowAfter(change), j);
      }
    }
  }

  lemma UniqueIsHarmlessFor(conflicts: map<RowId, Conflict>, id: RowId, after: Option<Conflict>, j: RowId)
    requires OpenKeysUnique(conflicts) && OpenKeysUnique(WithRow(conflicts, id, after)) && j in conflicts && j != id
    ensures HarmlessFor(RowOf(conflicts, id), after, conflicts[j])
  {
    var conflicts' := WithRow(conflicts, id, after);
    assert j in conflicts' && conflicts'[j] == conflicts[j];
    assert after.Some? ==> conflicts'[id] == after.value;
  }

  lemma {:induction false} UniqueThroughoutIsHarmless(t: Tables, changes: seq<Change>, last: Tables)
    requires History(t, changes, last) && UniqueThroughout(t, changes, last)
    ensures HarmlessThroughout(t, changes, last)
    decreases changes
  {
    if changes != [] {
      UniqueIsHarmless(t, changes[0]);
      UniqueThroughoutIsHarmless(Apply(t, changes[0]), changes[1..], last);
    }
  }

  // ---------------------------------------------------------------- histories that name every opponent

  predicate NamesOpponent(change: Change) { change.PutConflict? ==> change.row.opponent.Some? }

  predicate AllOpposed(conflicts: map<RowId, Conflict>) { forall i | i in conflicts :: conflicts[i].opponent.Some? }

  /** A history whose every state satisfies the unique constraint and which writes no conflict without an opponent. */
  predicate Accepted(t: Tables, changes: seq<Change>, last: Tables)
    decreases changes
  {
    && PairsUnique(t.conflicts)
    && if changes == [] then t == last
       else Valid(t, changes[0]) && NamesOpponent(changes[0]) && Accepted(Apply(t, changes[0]), changes[1..], last)
  }

  lemma {:induction false} AcceptedIsHistory(t: Tables, changes: seq<Change>, last: Tables)
    requires Accepted(t, changes, last)
    ensures History(t, changes, last) && PairsUnique(last.conflicts)
    decreases changes
  {
    if changes != [] {
      AcceptedIsHistory(Apply(t, changes[0]), changes[1..], last);
    }
  }

  lemma {:induction false} AcceptedIsUnique(t: Tables, changes: seq<Change>, last: Tables)
    requires Accepted(t, changes, last) && AllOpposed(t.conflicts)
    ensures History(t, changes, last) && UniqueThroughout(t, changes, last) && AllOpposed(last.conflicts)
    decreases changes
  {
    OpponentsMakeKeysUnique(t.conflicts);
    if changes != [] {
      AcceptedIsUnique(Apply(t, changes[0]), changes[1..], last);
    }
  }

  predicate Quiet(changes: seq<Change>) { forall i | 0 <= i < |changes| :: !OnConflicts(changes[i]) }

  lemma {:induction false} QuietIsAccepted(t: Tables, changes: seq<Change>, last: Tables)
    requires History(t, changes, last) && Quiet(changes) && PairsUnique(t.conflicts)
    ensures Accepted(t, changes, last)
    decreases changes
  {
    if changes != [] {
      QuietIsAccepted(Apply(t, changes[0]), changes[1..], last);
    }
  }

  lemma {:induction false} AcceptedAppend(t: Tables, a: seq<Change>, mid: Tables, b: seq<Change>, last: Tables)
    requires Accepted(t, a, mid) && Accepted(mid, b, last)
    ensures Accepted(t, a + b, last)
    decreases a
  {
    if a == [] {
      assert a + b == b;
    } else {
      AcceptedAppend(Apply(t, a[0]), a[1..], mid, b, last);
      AcceptedPrepend(Apply(t, a[0]), a[1..] + b, last, t, a[0]);
      Associative([a[0]], a[1..], b);
      assert [a[0]] + a[1..] == a;
    }
  }

  lemma AcceptedPrepend(t: Tables, changes: seq<Change>, last: Tables, before: Tables, change: Change)
    requires Accepted(t, changes, last) && Valid(before, change) && Apply(before, change) == t
    requires NamesOpponent(change) && PairsUnique(before.conflicts)
    ensures Accepted(before, [change] + changes, last)
  {
    assert ([change] + changes)[1..] == changes;
  }

  lemma AcceptedOneMore(t: Tables, changes: seq<Change>, mid: Tables, change: Change)
    requires Accepted(t, changes, mid) && Valid(mid, change) && NamesOpponent(change)
             && PairsUnique(Apply(mid, change).conflicts)
    ensures Accepted(t, changes + [change], Apply(mid, change))
  {
    AcceptedIsHistory(t, changes, mid);
    assert [change][1..] == [];
    assert Accepted(Apply(mid, change), [], Apply(mid, change));
    AcceptedAppend(t, changes, mid, [change], Apply(mid, change));
  }

  // ---------------------------------------------------------------- main results

  /** Folding all events of any history rebuilds presence and, for each faction and system, the set of states that
      are pending or active. */
  lemma EventsRebuildTables(changes: seq<Change>, last: Tables, key: RowKey)
    requires History(EMPTY, changes, last)
    ensures RebuiltPresence(last.outbox) == last.presence
    ensures KnowsUnion(last, key)
  {
    PresenceRebuilds(EMPTY, changes, last);
    UnionRebuilds(EMPTY, changes, last, key);
  }

  /** Pending and active states are told apart correctly at every point of a history exactly if no row listed a
      state in both. */
  lemma EventsTellStatesApart(changes: seq<Change>, last: Tables, key: RowKey)
    requires History(EMPTY, changes, last)
    ensures KnowsBothThroughout(EMPTY, changes, last, key) <==> NeverOverlaps(changes, key)
  {
    BothRebuildWithoutOverlap(EMPTY, changes, last, key);
  }

  /** Folding the conflict events shows the open conflicts and their lifecycle at every point of a history exactly if
      every change was harmless. Unique keys are enough for that. */
  lemma EventsRebuildConflicts(changes: seq<Change>, last: Tables)
    requires History(EMPTY, changes, last)
    ensures ConflictsKnownThroughout(EMPTY, changes, last) <==> HarmlessThroughout(EMPTY, changes, last)
    ensures HarmlessThroughout(EMPTY, changes, last) ==> KnownByStatus(OpenOf(last), last.conflicts)
    ensures UniqueThroughout(EMPTY, changes, last) ==> HarmlessThroughout(EMPTY, changes, last)
  {
    ConflictsRebuild(EMPTY, changes, last);
    if HarmlessThroughout(EMPTY, changes, last) {
      KnownAtTheEnd(EMPTY, changes, last);
    }
    if UniqueThroughout(EMPTY, changes, last) {
      UniqueThroughoutIsHarmless(EMPTY, changes, last);
    }
  }

  /** Without opponents the constraint does not keep keys unique, and one of two such conflicts ending hides the
      other. */
  lemma MissingOpponentsConfuseConsumers(a: Conflict)
    returns (changes: seq<Change>, last: Tables)
    requires a.opponent.None? && a.Open()
    ensures History(EMPTY, changes, last) && PairsUnique(last.conflicts)
    ensures last.conflicts == map[1 := a] && OpenOf(last) == map[]
  {
    var t1, t2;
    t1, t2, last := TwoAlike(a);
    HistoryPrepend(last, [], last, t2, RemoveConflict(0));
    HistoryPrepend(t2, [RemoveConflict(0)] + [], last, t1, PutConflict(1, a));
    HistoryPrepend(t1, [PutConflict(1, a)] + ([RemoveConflict(0)] + []), last, EMPTY, PutConflict(0, a));
    changes := [PutConflict(0, a)] + ([PutConflict(1, a)] + ([RemoveConflict(0)] + []));
  }

  lemma TwoAlike(a: Conflict) returns (t1: Tables, t2: Tables, t3: Tables)
    requires a.opponent.None? && a.Open()
    ensures Valid(EMPTY, PutConflict(0, a)) && t1 == Apply(EMPTY, PutConflict(0, a))
    ensures Valid(t1, PutConflict(1, a)) && t2 == Apply(t1, PutConflict(1, a))
    ensures Valid(t2, RemoveConflict(0)) && t3 == Apply(t2, RemoveConflict(0))
    ensures t3.conflicts == map[1 := a] && OpenOf(t3) == map[]
  {
    t1 := NewRow(EMPTY, 0, a);
    t2 := NewRow(t1, 1, a);
    t3 := OldRow(t2, 0, a);
    SecondRemains(a);
  }

  lemma SecondRemains(a: Conflict)
    ensures map[0 := a][1 := a] - {0} == map[1 := a]
  {
  }

  lemma NewRow(t: Tables, id: RowId, a: Conflict) returns (t': Tables)
    requires id !in t.conflicts && a.Open()
    ensures Valid(t, PutConflict(id, a)) && t' == Apply(t, PutConflict(id, a)) && t'.conflicts == t.conflicts[id := a]
    ensures OpenOf(t') == OpenOf(t)[a.Key() := a.Lifecycle().value]
  {
    t' := Apply(t, PutConflict(id, a));
    OpenAfter(t, PutConflict(id, a));
  }

  lemma OldRow(t: Tables, id: RowId, a: Conflict) returns (t': Tables)
    requires t.Row(id) == Some(a) && a.Open() && Records(OpenOf(t), Some(a))
    ensures Valid(t, RemoveConflict(id)) && t' == Apply(t, RemoveConflict(id)) && t'.conflicts == t.conflicts - {id}
    ensures OpenOf(t') == OpenOf(t) - {a.Key()}
  {
    t' := Apply(t, RemoveConflict(id));
    OpenAfter(t, RemoveConflict(id));
  }

  lemma HistoryPrepend(t: Tables, changes: seq<Change>, last: Tables, before: Tables, change: Change)
    requires History(t, changes, last) && Valid(before, change) && Apply(before, change) == t
    ensures History(before, [change] + changes, last)
  {
    assert ([change] + changes)[1..] == changes;
  }
}
