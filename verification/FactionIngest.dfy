/** Processing one message about a system's factions: the statements the worker executes in one transaction, with
    the triggers they fire. */
module FactionIngest {
  import opened Collections
  import opened Galaxy
  import E = LifecycleEvents
  import T = ControlThreat
  import opened LifecycleTriggers
  import opened ControlThreatTriggers

  // a faction's part of a message, states already mapped; `other` stands for the columns no trigger looks at
  datatype Content = Content(influence: real, lists: E.StateLists, other: string)

  datatype FactionEntry = FactionEntry(name: string, content: Content)

  datatype ConflictEntry = ConflictEntry(faction: string, opponent: string, kind: E.ConflictType,
                                         status: E.ConflictStatus)

  datatype Message = Message(factions: seq<FactionEntry>, systemFaction: Option<string>, conflicts: seq<ConflictEntry>)
  {
    function Names(): set<string> { set i | 0 <= i < |factions| :: factions[i].name }
  }

  datatype Row = Row(content: Content, createdAt: int, updatedAt: int)

  function Lists(rows: map<RowKey, Row>): map<RowKey, E.StateLists> { map k | k in rows :: rows[k].content.lists }

  function Influences(rows: map<RowKey, Row>): map<RowKey, T.StateRow> {
    map k | k in rows :: T.StateRow(rows[k].content.influence, rows[k].updatedAt, rows[k].createdAt)
  }

  lemma ListsUnion(a: map<RowKey, Row>, b: map<RowKey, Row>)
    ensures Lists(a + b) == Lists(a) + Lists(b)
  {
  }

  lemma InfluencesUnion(a: map<RowKey, Row>, b: map<RowKey, Row>)
    ensures Influences(a + b) == Influences(a) + Influences(b)
  {
  }

  lemma ProjectionsFollow(rows: map<RowKey, Row>, inserted: map<RowKey, Row>, updated: map<RowKey, Row>)
    ensures Lists(rows + inserted + updated) == Lists(rows) + Lists(inserted + updated)
    ensures Influences(rows + inserted + updated) == Influences(rows) + Influences(inserted) + Influences(updated)
  {
    assert rows + inserted + updated == rows + (inserted + updated);
    ListsUnion(rows, inserted + updated);
    InfluencesUnion(rows + inserted, updated);
    InfluencesUnion(rows, inserted);
  }

  lemma ProjectionsDrop(rows: map<RowKey, Row>, keys: set<RowKey>)
    ensures Lists(rows - keys) == Lists(rows) - keys && Influences(rows - keys) == Influences(rows) - keys
  {
  }

  function Inserted(rows: map<RowKey, Row>, wanted: map<RowKey, Content>, now: int): map<RowKey, Row> {
    map k | k in wanted && k !in rows :: Row(wanted[k], now, now)
  }

  /** Only rows whose content differs are updated. */
  function Updated(rows: map<RowKey, Row>, wanted: map<RowKey, Content>, now: int): map<RowKey, Row> {
    map k | k in wanted && k in rows && rows[k].content != wanted[k] :: Row(wanted[k], rows[k].createdAt, now)
  }

  function Upserted(rows: map<RowKey, Row>, wanted: map<RowKey, Content>, now: int): map<RowKey, Row> {
    rows + Inserted(rows, wanted, now) + Updated(rows, wanted, now)
  }

  /** A row keeps the time it was created, and is touched exactly if it is new or its content differs. */
  lemma UpsertTimes(rows: map<RowKey, Row>, wanted: map<RowKey, Content>, now: int, k: RowKey)
    requires k in Upserted(rows, wanted, now)
    ensures var after := Upserted(rows, wanted, now)[k];
            && (k in rows ==> after.createdAt == rows[k].createdAt)
            && (k !in rows ==> k in wanted && after.createdAt == now && after.updatedAt == now)
            && (k in rows && after.content == rows[k].content ==> after == rows[k])
            && (k in rows && after.content != rows[k].content ==> after.updatedAt == now)
            && after.content == if k in wanted then wanted[k] else rows[k].content
  {
  }

  lemma UpsertProjections(rows: map<RowKey, Row>, wanted: map<RowKey, Content>, now: int)
    ensures var inserted, updated := Inserted(rows, wanted, now), Updated(rows, wanted, now);
            && Lists(Upserted(rows, wanted, now)) == Lists(rows) + Lists(inserted + updated)
            && Influences(Upserted(rows, wanted, now)) == Influences(rows) + Influences(inserted) + Influences(updated)
            && Influences(inserted).Keys + Influences(updated).Keys <= wanted.Keys
            && (inserted == map[] && updated == map[] ==>
                  Lists(inserted + updated) == map[] && Influences(inserted) == map[] && Influences(updated) == map[])
  {
    ProjectionsFollow(rows, Inserted(rows, wanted, now), Updated(rows, wanted, now));
  }

  /** The system's rows of factions that left it. */
  function StaleStates(rows: map<RowKey, Row>, s: SystemId, ids: set<FactionId>): set<RowKey> {
    set k | k in rows && k.system == s && k.faction !in ids
  }

  predicate NothingNew(rows: map<RowKey, Row>, s: SystemId, ids: set<FactionId>, wanted: map<RowKey, Content>, now: int)
  {
    StaleStates(rows, s, ids) == {} && Inserted(rows, wanted, now) == map[] && Updated(rows, wanted, now) == map[]
  }

  lemma DropNothing(rows: map<RowKey, Row>)
    ensures rows - {} == rows
  {
  }

  /** After the deletion and the upsert the system's rows are the wanted ones and nothing else changed. */
  lemma StatesReplaced(rows: map<RowKey, Row>, s: SystemId, ids: set<FactionId>, wanted: map<RowKey, Content>, now: int)
    requires forall k | k in wanted :: k.system == s && k.faction in ids
    ensures var after := Upserted(rows - StaleStates(rows, s, ids), wanted, now);
            Holds(after, wanted) && Within(after, s, ids) && RowsKept(s, rows, after)
  {
  }

  /** If the rows are the wanted ones already, no statement touches any. */
  lemma NothingToWrite(rows: map<RowKey, Row>, s: SystemId, ids: set<FactionId>, wanted: map<RowKey, Content>, now: int)
    requires Holds(rows, wanted) && Within(rows, s, ids)
    ensures NothingNew(rows, s, ids, wanted, now) && Upserted(rows - StaleStates(rows, s, ids), wanted, now) == rows
  {
    DropNothing(rows);
  }

  predicate Known(e: ConflictEntry, names: set<string>) { e.faction in names && e.opponent in names }

  /** No statement meets the same row twice; otherwise the database rejects it and the transaction is undone. */
  predicate Acceptable(message: Message, names: set<string>) {
    && (forall i, j | 0 <= i < j < |message.factions| :: message.factions[i].name != message.factions[j].name)
    && (forall i, j | 0 <= i < j < |message.conflicts|
                      && Known(message.conflicts[i], names) && Known(message.conflicts[j], names) ::
          !(message.conflicts[i].faction == message.conflicts[j].faction
            && message.conflicts[i].opponent == message.conflicts[j].opponent))
  }

  predicate Injective(factions: map<string, FactionId>) {
    forall a, b | a in factions && b in factions && factions[a] == factions[b] :: a == b
  }

  function WantedConflict(e: ConflictEntry, s: SystemId, factions: map<string, FactionId>): E.Conflict
    requires Known(e, factions.Keys)
  {
    E.Conflict(s, factions[e.faction], Some(factions[e.opponent]), e.kind, e.status)
  }

  function WantedRows(entries: seq<FactionEntry>, s: SystemId, factions: map<string, FactionId>): map<RowKey, Content>
    requires forall i | 0 <= i < |entries| :: entries[i].name in factions
  {
    if entries == [] then map[]
    else
      var last := entries[|entries| - 1];
      WantedRows(entries[..|entries| - 1], s, factions)[RowKey(s, factions[last.name]) := last.content]
  }

  lemma {:induction false} WantedRowsAt(entries: seq<FactionEntry>, s: SystemId, factions: map<string, FactionId>)
    requires Injective(factions) && forall i | 0 <= i < |entries| :: entries[i].name in factions
    requires forall i, j | 0 <= i < j < |entries| :: entries[i].name != entries[j].name
    ensures forall i | 0 <= i < |entries| ::
              RowKey(s, factions[entries[i].name]) in WantedRows(entries, s, factions)
              && WantedRows(entries, s, factions)[RowKey(s, factions[entries[i].name])] == entries[i].content
    ensures forall k | k in WantedRows(entries, s, factions) ::
              k.system == s && exists i :: 0 <= i < |entries| && factions[entries[i].name] == k.faction
  {
    if entries != [] {
      var front, last := entries[..|entries| - 1], entries[|entries| - 1];
      WantedRowsAt(front, s, factions);
      forall i | 0 <= i < |entries|
        ensures RowKey(s, factions[entries[i].name]) in WantedRows(entries, s, factions)
        ensures WantedRows(entries, s, factions)[RowKey(s, factions[entries[i].name])] == entries[i].content
      {
        if i < |front| {
          assert front[i] == entries[i] && factions[front[i].name] != factions[last.name];
        }
      }
      forall k | k in WantedRows(entries, s, factions)
        ensures k.system == s && exists i :: 0 <= i < |entries| && factions[entries[i].name] == k.faction
      {
        WantedRowsFrom(entries, s, factions, k);
      }
    }
  }

  lemma {:induction false} WantedRowsFrom(entries: seq<FactionEntry>, s: SystemId, factions: map<string, FactionId>,
                                          k: RowKey)
    requires forall i | 0 <= i < |entries| :: entries[i].name in factions
    requires k in WantedRows(entries, s, factions)
    ensures k.system == s && exists i :: 0 <= i < |entries| && factions[entries[i].name] == k.faction
  {
    var front, last := entries[..|entries| - 1], entries[|entries| - 1];
    if k == RowKey(s, factions[last.name]) {
      assert factions[entries[|entries| - 1].name] == k.faction;
    } else {
      WantedRowsFrom(front, s, factions, k);
      var i :| 0 <= i < |front| && factions[front[i].name] == k.faction;
      assert entries[i] == front[i];
    }
  }

  // which row holds which conflict of the message
  datatype Stored = Stored(at: map<nat, E.RowId>, index: map<E.RowId, nat>)
  {
    function Add(n: nat, id: E.RowId): Stored { Stored(at[n := id], index[id := n]) }

    predicate Inverse() {
      && (forall i | i in at :: at[i] in index)
      && (forall id | id in index :: index[id] in at && at[index[id]] == id)
    }

    lemma AddKeepsInverse(n: nat, id: E.RowId)
      requires Inverse() && n !in at && forall i | i in at :: at[i] != id
      ensures Add(n, id).Inverse()
    {
    }
  }

  predicate SamePair(a: E.Conflict, b: E.Conflict) {
    a.system == b.system && a.faction == b.faction && a.opponent == b.opponent
  }

  /** The conflicts to store; those about unknown factions are skipped. */
  function WantedConflicts(entries: seq<ConflictEntry>, s: SystemId,
                           factions: map<string, FactionId>): seq<Option<E.Conflict>>
  {
    seq(|entries|, i requires 0 <= i < |entries| =>
      if Known(entries[i], factions.Keys) then Some(WantedConflict(entries[i], s, factions)) else None)
  }

  predicate Wants(wanted: seq<Option<E.Conflict>>, i: int) { 0 <= i < |wanted| && wanted[i].Some? }

  predicate InSystem(conflicts: map<E.RowId, E.Conflict>, id: E.RowId, s: SystemId) {
    id in conflicts && conflicts[id].system == s
  }

  predicate Stores(conflicts: map<E.RowId, E.Conflict>, id: E.RowId, row: E.Conflict) {
    id in conflicts && conflicts[id] == row
  }

  /** The system's rows are the wanted conflicts, and all of them. */
  ghost predicate ConflictsAre(wanted: seq<Option<E.Conflict>>, s: SystemId, conflicts: map<E.RowId, E.Conflict>) {
    && (forall i {:trigger Wants(wanted, i)} | Wants(wanted, i) :: exists id :: Stores(conflicts, id, wanted[i].value))
    && (forall id {:trigger InSystem(conflicts, id, s)} | InSystem(conflicts, id, s) ::
          exists i {:trigger Wants(wanted, i)} :: Wants(wanted, i) && Stores(conflicts, id, wanted[i].value))
  }

  predicate PairsDiffer(wanted: seq<Option<E.Conflict>>) {
    forall i, j | 0 <= i < j < |wanted| && wanted[i].Some? && wanted[j].Some? ::
      !SamePair(wanted[i].value, wanted[j].value)
  }

  /** A message is acceptable exactly if no statement would write a row twice: no faction twice, and no two of the
      conflicts to be stored between the same two factions in the same order. */
  lemma AcceptableExactly(message: Message, s: SystemId, factions: map<string, FactionId>)
    requires Injective(factions)
    ensures Acceptable(message, factions.Keys) <==>
            && (forall i, j | 0 <= i < j < |message.factions| :: message.factions[i].name != message.factions[j].name)
            && (forall a, b, i, j | 0 <= i < j < |message.conflicts|
                                    && IsConflict(message.conflicts[i], s, factions, a)
                                    && IsConflict(message.conflicts[j], s, factions, b) :: !SamePair(a, b))
  {
    var entries := message.conflicts;
    forall i, j | 0 <= i < j < |entries| && Known(entries[i], factions.Keys) && Known(entries[j], factions.Keys)
      ensures SamePair(WantedConflict(entries[i], s, factions), WantedConflict(entries[j], s, factions)) <==>
              entries[i].faction == entries[j].faction && entries[i].opponent == entries[j].opponent
      ensures IsConflict(entries[i], s, factions, WantedConflict(entries[i], s, factions))
      ensures IsConflict(entries[j], s, factions, WantedConflict(entries[j], s, factions))
    {
    }
  }

  lemma AcceptablePairsDiffer(message: Message, s: SystemId, factions: map<string, FactionId>)
    requires Acceptable(message, factions.Keys) && Injective(factions)
    ensures PairsDiffer(WantedConflicts(message.conflicts, s, factions))
            && AllIn(WantedConflicts(message.conflicts, s, factions), s)
  {
  }

  /** Each of the first `n` wanted conflicts is stored in a row of its own. */
  predicate StoredUpTo(wanted: seq<Option<E.Conflict>>, conflicts: map<E.RowId, E.Conflict>, n: nat, done: Stored) {
    && (forall i: nat | i < n && i < |wanted| && wanted[i].Some? :: i in done.at)
    && (forall i | i in done.at ::
        i < n && i < |wanted| && done.at[i] in conflicts && wanted[i] == Some(conflicts[done.at[i]]))
    && done.Inverse()
  }

  /** The rows outside `stored` are as before, and no row changed its system. */
  predicate OthersKept(conflicts: map<E.RowId, E.Conflict>, stored: set<E.RowId>, before: map<E.RowId, E.Conflict>) {
    && (forall id | id in conflicts && id !in stored :: id in before && before[id] == conflicts[id])
    && (forall id | id in before :: id in conflicts && before[id].system == conflicts[id].system)
  }

  lemma StoreOneMore(wanted: seq<Option<E.Conflict>>, conflicts: map<E.RowId, E.Conflict>, n: nat, done: Stored,
                     id: E.RowId)
    requires n < |wanted| && wanted[n].Some? && PairsDiffer(wanted) && StoredUpTo(wanted, conflicts, n, done)
    requires id in conflicts ==> SamePair(conflicts[id], wanted[n].value)
    ensures StoredUpTo(wanted, conflicts[id := wanted[n].value], n + 1, done.Add(n, id))
  {
    RowIsFree(wanted, conflicts, n, done, id);
    done.AddKeepsInverse(n, id);
  }

  lemma RowIsFree(wanted: seq<Option<E.Conflict>>, conflicts: map<E.RowId, E.Conflict>, n: nat, done: Stored,
                  id: E.RowId)
    requires n < |wanted| && wanted[n].Some? && PairsDiffer(wanted) && StoredUpTo(wanted, conflicts, n, done)
    requires id in conflicts ==> SamePair(conflicts[id], wanted[n].value)
    ensures forall i | i in done.at :: done.at[i] != id
  {
    forall i | i in done.at ensures done.at[i] != id {
      assert !SamePair(wanted[i].value, wanted[n].value);
    }
  }

  predicate AllThere(wanted: seq<Option<E.Conflict>>, conflicts: map<E.RowId, E.Conflict>) {
    forall i | 0 <= i < |wanted| && wanted[i].Some? :: wanted[i].value in conflicts.Values
  }

  lemma WantedAreThere(wanted: seq<Option<E.Conflict>>, s: SystemId, conflicts: map<E.RowId, E.Conflict>)
    requires ConflictsAre(wanted, s, conflicts)
    ensures AllThere(wanted, conflicts)
  {
    forall i | 0 <= i < |wanted| && wanted[i].Some? ensures wanted[i].value in conflicts.Values {
      assert Wants(wanted, i);
    }
  }

  lemma OneMoreKept(conflicts: map<E.RowId, E.Conflict>, stored: set<E.RowId>, before: map<E.RowId, E.Conflict>,
                    id: E.RowId, row: E.Conflict)
    requires OthersKept(conflicts, stored, before) && (id in conflicts ==> conflicts[id].system == row.system)
    ensures OthersKept(conflicts[id := row], stored + {id}, before)
  {
  }

  lemma UpsertKeepsPairs(conflicts: map<E.RowId, E.Conflict>, id: E.RowId, row: E.Conflict)
    requires E.PairsUnique(conflicts) && row.opponent.Some?
    requires (id in conflicts && SamePair(conflicts[id], row))
             || forall i | i in conflicts :: !SamePair(conflicts[i], row)
    ensures E.PairsUnique(conflicts[id := row])
  {
  }

  lemma SkipOne(wanted: seq<Option<E.Conflict>>, conflicts: map<E.RowId, E.Conflict>, n: nat, done: Stored)
    requires n < |wanted| && wanted[n].None? && StoredUpTo(wanted, conflicts, n, done)
    ensures StoredUpTo(wanted, conflicts, n + 1, done)
  {
  }

  /** Deleting the system's rows that were not stored leaves exactly the wanted ones. */
  lemma LeftAreWanted(wanted: seq<Option<E.Conflict>>, s: SystemId, conflicts: map<E.RowId, E.Conflict>, done: Stored,
                      stale: set<E.RowId>)
    requires StoredUpTo(wanted, conflicts, |wanted|, done)
    requires stale == StaleRows(s, conflicts, done.index.Keys)
    ensures ConflictsAre(wanted, s, conflicts - stale)
  {
    var left := conflicts - stale;
    forall i | Wants(wanted, i) ensures exists id :: Stores(left, id, wanted[i].value) {
      assert Stores(left, done.at[i], wanted[i].value);
    }
    forall id | InSystem(left, id, s)
      ensures exists i {:trigger Wants(wanted, i)} :: Wants(wanted, i) && Stores(left, id, wanted[i].value)
    {
      assert Wants(wanted, done.index[id]);
    }
  }

  function StaleRows(s: SystemId, conflicts: map<E.RowId, E.Conflict>, kept: set<E.RowId>): set<E.RowId> {
    set id | id in conflicts && conflicts[id].system == s && id !in kept
  }

  predicate AllIn(wanted: seq<Option<E.Conflict>>, s: SystemId) {
    forall i | 0 <= i < |wanted| && wanted[i].Some? :: wanted[i].value.system == s && wanted[i].value.opponent.Some?
  }

  predicate SameElsewhere(s: SystemId, before: map<E.RowId, E.Conflict>, after: map<E.RowId, E.Conflict>) {
    && (forall id | id in before && before[id].system != s :: id in after && after[id] == before[id])
    && (forall id | id in after && after[id].system != s :: id in before && after[id] == before[id])
  }

  lemma OtherSystemsLeft(wanted: seq<Option<E.Conflict>>, s: SystemId, before: map<E.RowId, E.Conflict>,
                         conflicts: map<E.RowId, E.Conflict>, done: Stored, stale: set<E.RowId>)
    requires StoredUpTo(wanted, conflicts, |wanted|, done) && OthersKept(conflicts, done.index.Keys, before)
             && AllIn(wanted, s)
    requires stale == StaleRows(s, conflicts, done.index.Keys)
    ensures SameElsewhere(s, before, conflicts - stale)
  {
    forall id | id in done.index ensures id in conflicts && conflicts[id].system == s {
      assert wanted[done.index[id]] == Some(conflicts[id]);
    }
  }

  /** If the wanted conflicts were there from the start, there is nothing to delete. */
  lemma NothingStale(wanted: seq<Option<E.Conflict>>, s: SystemId, conflicts: map<E.RowId, E.Conflict>, done: Stored)
    requires StoredUpTo(wanted, conflicts, |wanted|, done) && E.PairsUnique(conflicts) && AllIn(wanted, s)
    requires ConflictsAre(wanted, s, conflicts)
    ensures StaleRows(s, conflicts, done.index.Keys) == {}
  {
    forall id | InSystem(conflicts, id, s) ensures id in done.index {
      var i {:trigger Wants(wanted, i)} :| Wants(wanted, i) && Stores(conflicts, id, wanted[i].value);
      assert conflicts[done.at[i]] == conflicts[id];
    }
    forall id | id in conflicts && conflicts[id].system == s ensures id in done.index {
      assert InSystem(conflicts, id, s);
    }
  }

  function Ids(entries: seq<FactionEntry>, factions: map<string, FactionId>): set<FactionId>
    requires forall i | 0 <= i < |entries| :: entries[i].name in factions
  {
    set i | 0 <= i < |entries| :: factions[entries[i].name]
  }

  /** The system's presence and state rows are the factions of a message, with the message's content. */
  ghost predicate RowsAre(entries: seq<FactionEntry>, s: SystemId, factions: map<string, FactionId>,
                          presence: set<RowKey>, rows: map<RowKey, Row>)
  {
    && (forall i | 0 <= i < |entries| :: entries[i].name in factions)
    && (forall i | 0 <= i < |entries| ::
          var key := RowKey(s, factions[entries[i].name]);
          key in presence && key in rows && rows[key].content == entries[i].content)
    && (forall key: RowKey | key.system == s && (key in presence || key in rows) ::
        key.faction in Ids(entries, factions))
  }

  predicate PresenceIs(presence: set<RowKey>, s: SystemId, ids: set<FactionId>) {
    && (forall f | f in ids :: RowKey(s, f) in presence)
    && (forall k | k in presence && k.system == s :: k.faction in ids)
  }

  lemma NamingIsIn(message: Message)
    ensures NamesController(message) <==>
            message.systemFaction.Some? && message.systemFaction.value != ""
            && message.systemFaction.value in message.Names()
  {
  }

  lemma NamesKnown(message: Message, names: set<string>)
    requires message.Names() <= names
    ensures forall i | 0 <= i < |message.factions| :: message.factions[i].name in names
  {
    forall i | 0 <= i < |message.factions| ensures message.factions[i].name in names {
      assert message.factions[i].name in message.Names();
    }
  }

  predicate Holds(rows: map<RowKey, Row>, wanted: map<RowKey, Content>) {
    forall k | k in wanted :: k in rows && rows[k].content == wanted[k]
  }

  predicate Within(rows: map<RowKey, Row>, s: SystemId, ids: set<FactionId>) {
    forall k | k in rows && k.system == s :: k.faction in ids
  }

  predicate DistinctNames(entries: seq<FactionEntry>) {
    forall i, j | 0 <= i < j < |entries| :: entries[i].name != entries[j].name
  }

  lemma WantedRowsOf(entries: seq<FactionEntry>, s: SystemId, factions: map<string, FactionId>)
    requires Injective(factions) && DistinctNames(entries)
             && forall i | 0 <= i < |entries| :: entries[i].name in factions
    ensures forall k | k in WantedRows(entries, s, factions) :: k.system == s && k.faction in Ids(entries, factions)
  {
    WantedRowsAt(entries, s, factions);
  }

  /** What the statements establish one by one is that the rows are the message's, and nothing less. */
  lemma RowsAreExactly(entries: seq<FactionEntry>, s: SystemId, factions: map<string, FactionId>, presence: set<RowKey>,
                       rows: map<RowKey, Row>)
    requires Injective(factions) && DistinctNames(entries)
    requires forall i | 0 <= i < |entries| :: entries[i].name in factions
    ensures RowsAre(entries, s, factions, presence, rows) <==>
              && PresenceIs(presence, s, Ids(entries, factions))
              && Within(rows, s, Ids(entries, factions))
              && Holds(rows, WantedRows(entries, s, factions))
  {
    WantedRowsAt(entries, s, factions);
  }

  lemma RowsReplaced(entries: seq<FactionEntry>, s: SystemId, factions: map<string, FactionId>,
                     presence: set<RowKey>, rows: map<RowKey, Row>, presenceAfter: set<RowKey>, now: int)
    requires Injective(factions) && DistinctNames(entries)
             && forall i | 0 <= i < |entries| :: entries[i].name in factions
    requires PresenceIs(presenceAfter, s, Ids(entries, factions))
    ensures var ids, wanted := Ids(entries, factions), WantedRows(entries, s, factions);
            var after := Upserted(rows - StaleStates(rows, s, ids), wanted, now);
            && RowsAre(entries, s, factions, presenceAfter, after) && RowsKept(s, rows, after)
            && (RowsAre(entries, s, factions, presence, rows) ==>
                  PresenceIs(presence, s, ids) && NothingNew(rows, s, ids, wanted, now) && after == rows)
  {
    var ids, wanted := Ids(entries, factions), WantedRows(entries, s, factions);
    WantedRowsOf(entries, s, factions);
    StatesReplaced(rows, s, ids, wanted, now);
    RowsAreExactly(entries, s, factions, presenceAfter, Upserted(rows - StaleStates(rows, s, ids), wanted, now));
    RowsAreExactly(entries, s, factions, presence, rows);
    if RowsAre(entries, s, factions, presence, rows) {
      NothingToWrite(rows, s, ids, wanted, now);
    }
  }

  /** Names and identifiers of the factions are one to one, and the next identifier is unused. */
  predicate Named(factions: map<string, FactionId>, next: nat) {
    Injective(factions) && forall n | n in factions :: factions[n] < next
  }

  predicate SoundConflicts(conflicts: map<E.RowId, E.Conflict>, next: nat) {
    E.PairsUnique(conflicts) && forall id | id in conflicts :: id < next
  }

  ghost predicate PresenceKept(s: SystemId, before: set<RowKey>, after: set<RowKey>) {
    forall k: RowKey | k.system != s :: k in after <==> k in before
  }

  ghost predicate RowsKept(s: SystemId, before: map<RowKey, Row>, after: map<RowKey, Row>) {
    forall k: RowKey | k.system != s :: (k in after <==> k in before) && (k in after ==> after[k] == before[k])
  }

  function PresenceKeys(s: SystemId, ids: set<FactionId>): set<RowKey> { set f | f in ids :: RowKey(s, f) }

  function StalePresence(presence: set<RowKey>, s: SystemId, ids: set<FactionId>): set<RowKey> {
    set k | k in presence && k.system == s && k.faction !in ids
  }

  lemma PresenceReplaced(presence: set<RowKey>, s: SystemId, ids: set<FactionId>)
    ensures var inserted := presence + PresenceKeys(s, ids);
            var after := inserted - StalePresence(inserted, s, ids);
            PresenceIs(after, s, ids) && PresenceKept(s, presence, after)
    ensures PresenceIs(presence, s, ids) ==>
            PresenceKeys(s, ids) <= presence && StalePresence(presence + PresenceKeys(s, ids), s, ids) == {}
  {
  }

  // -------------------------------------------------------------- what a message amounts to

  /** The message names its system's controlling faction, one of its factions. */
  predicate NamesController(message: Message) {
    && message.systemFaction.Some? && message.systemFaction.value != ""
    && exists i :: 0 <= i < |message.factions| && message.factions[i].name == message.systemFaction.value
  }

  /** Only the message's system gets another controlling faction, if the message names one. */
  predicate ControllersAre(message: Message, s: SystemId, factions: map<string, FactionId>,
                           before: map<SystemId, Option<FactionId>>, after: map<SystemId, Option<FactionId>>)
  {
    if NamesController(message) then
      message.systemFaction.value in factions && after == before[s := Some(factions[message.systemFaction.value])]
    else after == before
  }

  /** The system's state rows of the lifecycle events are the message's lists. */
  ghost predicate ListsAre(entries: seq<FactionEntry>, s: SystemId, factions: map<string, FactionId>,
                           states: map<RowKey, E.StateLists>)
  {
    && (forall i | 0 <= i < |entries| ::
          && entries[i].name in factions && RowKey(s, factions[entries[i].name]) in states
          && states[RowKey(s, factions[entries[i].name])].pending == entries[i].content.lists.pending
          && states[RowKey(s, factions[entries[i].name])].active == entries[i].content.lists.active)
    && forall key: RowKey | key in states && key.system == s ::
         exists i :: 0 <= i < |entries| && entries[i].name in factions && factions[entries[i].name] == key.faction
  }

  /** Entry `i` is the controlling faction and entry `j` comes within the threshold of it. */
  predicate Contests(entries: seq<FactionEntry>, i: int, j: int, controller: Option<FactionId>,
                     factions: map<string, FactionId>)
  {
    && 0 <= i < |entries| && 0 <= j < |entries| && i != j
    && entries[i].name in factions && controller == Some(factions[entries[i].name])
    && entries[j].content.influence >= entries[i].content.influence - 0.10
  }

  /** The rows that the threat refresh looks at are the state rows, with their influence and times. */
  ghost predicate ThreatRowsAre(rows: map<RowKey, Row>, states: map<RowKey, T.StateRow>) {
    && states.Keys == rows.Keys
    && forall k | k in rows ::
         && states[k].influence == rows[k].content.influence
         && states[k].updatedAt == rows[k].updatedAt && states[k].createdAt == rows[k].createdAt
  }

  /** A new row has the time of the message, one with other content is updated then, an equal one stays. */
  predicate TimesFollow(before: map<RowKey, Row>, after: map<RowKey, Row>, s: SystemId, now: int) {
    forall k | k in after && k.system == s ::
      && (k !in before ==> after[k].createdAt == now && after[k].updatedAt == now)
      && (k in before && before[k].content == after[k].content ==> after[k] == before[k])
      && (k in before && before[k].content != after[k].content ==>
            after[k].createdAt == before[k].createdAt && after[k].updatedAt == now)
  }

  lemma ReplacedTimes(rows: map<RowKey, Row>, s: SystemId, ids: set<FactionId>, wanted: map<RowKey, Content>, now: int)
    requires forall k | k in wanted :: k.system == s && k.faction in ids
    ensures TimesFollow(rows, Upserted(rows - StaleStates(rows, s, ids), wanted, now), s, now)
  {
    var kept := rows - StaleStates(rows, s, ids);
    forall k | k in Upserted(kept, wanted, now) && k.system == s ensures k in rows <==> k in kept {
      assert k !in StaleStates(rows, s, ids);
    }
  }

  predicate IsConflict(e: ConflictEntry, s: SystemId, factions: map<string, FactionId>, c: E.Conflict) {
    && e.faction in factions && e.opponent in factions && c.system == s && c.faction == factions[e.faction]
    && c.opponent == Some(factions[e.opponent]) && c.kind == e.kind && c.status == e.status
  }

  /** The system's conflict rows are the entries between two of the named factions, and all of them. */
  ghost predicate ConflictsFrom(entries: seq<ConflictEntry>, s: SystemId, factions: map<string, FactionId>,
                                names: set<string>, conflicts: map<E.RowId, E.Conflict>)
  {
    EachIsStored(entries, s, factions, names, conflicts) && AllAreStated(entries, s, factions, names, conflicts)
  }

  ghost predicate EachIsStored(entries: seq<ConflictEntry>, s: SystemId, factions: map<string, FactionId>,
                               names: set<string>, conflicts: map<E.RowId, E.Conflict>)
  {
    forall n {:trigger Among(entries, n, names)} | Among(entries, n, names) ::
      exists id :: id in conflicts && IsConflict(entries[n], s, factions, conflicts[id])
  }

  ghost predicate AllAreStated(entries: seq<ConflictEntry>, s: SystemId, factions: map<string, FactionId>,
                               names: set<string>, conflicts: map<E.RowId, E.Conflict>)
  {
    forall id | id in conflicts && conflicts[id].system == s ::
      exists n :: Among(entries, n, names) && IsConflict(entries[n], s, factions, conflicts[id])
  }

  predicate Among(entries: seq<ConflictEntry>, n: int, names: set<string>) {
    0 <= n < |entries| && entries[n].faction in names && entries[n].opponent in names
  }

  lemma WantedAreFrom(entries: seq<ConflictEntry>, s: SystemId, factions: map<string, FactionId>,
                      conflicts: map<E.RowId, E.Conflict>)
    requires ConflictsAre(WantedConflicts(entries, s, factions), s, conflicts)
    ensures ConflictsFrom(entries, s, factions, factions.Keys, conflicts)
  {
    var wanted := WantedConflicts(entries, s, factions);
    forall n | Among(entries, n, factions.Keys)
      ensures exists id :: id in conflicts && IsConflict(entries[n], s, factions, conflicts[id])
    {
      assert Wants(wanted, n);
      var id :| Stores(conflicts, id, wanted[n].value);
      assert IsConflict(entries[n], s, factions, conflicts[id]);
    }
    forall id | id in conflicts && conflicts[id].system == s
      ensures exists n :: Among(entries, n, factions.Keys) && IsConflict(entries[n], s, factions, conflicts[id])
    {
      assert InSystem(conflicts, id, s);
      var n {:trigger Wants(wanted, n)} :| Wants(wanted, n) && Stores(conflicts, id, wanted[n].value);
      assert Among(entries, n, factions.Keys) && IsConflict(entries[n], s, factions, conflicts[id]);
    }
  }

  lemma ListsFollow(entries: seq<FactionEntry>, s: SystemId, factions: map<string, FactionId>, presence: set<RowKey>,
                    rows: map<RowKey, Row>)
    requires RowsAre(entries, s, factions, presence, rows)
    ensures ListsAre(entries, s, factions, Lists(rows))
  {
    forall key: RowKey | key in rows && key.system == s
      ensures exists i :: 0 <= i < |entries| && entries[i].name in factions && factions[entries[i].name] == key.faction
    {
      assert key.faction in Ids(entries, factions);
    }
  }

  lemma EntryInfluence(entries: seq<FactionEntry>, s: SystemId, factions: map<string, FactionId>,
                       presence: set<RowKey>, rows: map<RowKey, Row>, db: T.Db, i: nat)
    requires RowsAre(entries, s, factions, presence, rows) && ThreatRowsAre(rows, db.states) && i < |entries|
    ensures var f := factions[entries[i].name];
            f in db.RowsOf(s) && db.RowsOf(s)[f].influence == entries[i].content.influence
  {
    assert RowKey(s, factions[entries[i].name]) in db.states;
  }

  lemma RowHasEntry(entries: seq<FactionEntry>, s: SystemId, factions: map<string, FactionId>,
                    presence: set<RowKey>, rows: map<RowKey, Row>, db: T.Db, f: FactionId) returns (i: nat)
    requires RowsAre(entries, s, factions, presence, rows) && ThreatRowsAre(rows, db.states) && f in db.RowsOf(s)
    ensures i < |entries| && factions[entries[i].name] == f
  {
    assert RowKey(s, f) in rows;
    assert f in Ids(entries, factions);
    i :| 0 <= i < |entries| && factions[entries[i].name] == f;
  }

  /** The controlling faction has a close challenger in the table exactly if it has one in the message. */
  lemma ContestFollows(entries: seq<FactionEntry>, s: SystemId, factions: map<string, FactionId>,
                       presence: set<RowKey>, rows: map<RowKey, Row>, db: T.Db)
    requires RowsAre(entries, s, factions, presence, rows) && Injective(factions) && DistinctNames(entries)
    requires ThreatRowsAre(rows, db.states)
    ensures T.ComesWithinThreshold(db.Controller(s), db.RowsOf(s)) <==>
            exists i, j :: Contests(entries, i, j, db.Controller(s), factions)
  {
    var controller, states := db.Controller(s), db.RowsOf(s);
    if T.ComesWithinThreshold(controller, states) {
      var c := controller.value;
      var g :| g in states && g != c && states[g].influence >= states[c].influence - 0.10;
      var i := RowHasEntry(entries, s, factions, presence, rows, db, c);
      var j := RowHasEntry(entries, s, factions, presence, rows, db, g);
      EntryInfluence(entries, s, factions, presence, rows, db, i);
      EntryInfluence(entries, s, factions, presence, rows, db, j);
      assert Contests(entries, i, j, controller, factions);
    }
    if i, j :| Contests(entries, i, j, controller, factions) {
      EntryInfluence(entries, s, factions, presence, rows, db, i);
      EntryInfluence(entries, s, factions, presence, rows, db, j);
      assert entries[i].name != entries[j].name;
      ComesWithin(controller, states, factions[entries[i].name], factions[entries[j].name]);
    }
  }

  lemma ComesWithin(controller: Option<FactionId>, states: map<FactionId, T.StateRow>, c: FactionId, g: FactionId)
    requires controller == Some(c) && c in states && g in states && g != c
    requires states[g].influence >= states[c].influence - 0.10
    ensures T.ComesWithinThreshold(controller, states)
  {
  }

  class Worker {
    var factions: map<string, FactionId>
    var nextFactionId: nat
    var rows: map<RowKey, Row>
    var nextConflictId: nat
    const lifecycle: LifecycleTables
    const threat: ThreatTables

    /** Some systems are known, nothing is known about their factions. */
    constructor (systems: map<SystemId, Option<FactionId>>)
      ensures Valid() && fresh(lifecycle) && fresh(threat) && factions == map[]
      ensures lifecycle.View() == E.EMPTY && threat.View() == T.EMPTY.(controlling := systems)
    {
      factions, nextFactionId, rows, nextConflictId := map[], 0, map[], 0;
      lifecycle := new LifecycleTables();
      threat := new ThreatTables();
      new;
      threat.controlling := systems;
    }

    ghost predicate Valid()
      reads this, lifecycle, threat
    {
      && Named(factions, nextFactionId)
      && lifecycle.states == Lists(rows) && threat.states == Influences(rows)
      && SoundConflicts(lifecycle.conflicts, nextConflictId)
    }

    ghost predicate RowsFollow(message: Message, s: SystemId)
      reads this, lifecycle
    {
      RowsAre(message.factions, s, factions, lifecycle.presence, rows)
    }

    /** The system's conflict rows are the message's conflicts between factions that are known. */
    ghost predicate ConflictsFollow(message: Message, s: SystemId)
      reads this, lifecycle
    {
      ConflictsAre(WantedConflicts(message.conflicts, s, factions), s, lifecycle.conflicts)
    }

    predicate ControllerFollows(message: Message, s: SystemId)
      reads this, threat
    {
      message.systemFaction.Some? && message.systemFaction.value != ""
        && message.systemFaction.value in message.Names() ==>
        message.systemFaction.value in factions
        && threat.View().Controller(s) == Some(factions[message.systemFaction.value])
    }

    ghost predicate Follows(message: Message, s: SystemId)
      reads this, lifecycle, threat
    {
      RowsFollow(message, s) && ConflictsFollow(message, s) && ControllerFollows(message, s)
    }

    ghost function Tables(): Snapshot
      reads this, lifecycle, threat
    {
      Snapshot(factions, lifecycle.presence, rows, lifecycle.conflicts, threat.controlling)
    }

    /** What the tables say about the system after its message, without the statements between. */
    ghost predicate AmountsTo(message: Message, s: SystemId)
      reads this, lifecycle, threat
    {
      && ListsAre(message.factions, s, factions, lifecycle.states)
      && ThreatRowsAre(rows, threat.states)
      && ConflictsFrom(message.conflicts, s, factions, factions.Keys, lifecycle.conflicts)
    }

    ghost predicate ThreatFollows(message: Message, s: SystemId)
      reads this, threat
    {
      T.ShowsThreat(threat.View(), s) <==>
      exists i, j :: Contests(message.factions, i, j, threat.View().Controller(s), factions)
    }

    lemma Amounts(message: Message, s: SystemId)
      requires Valid() && Follows(message, s)
      ensures AmountsTo(message, s)
    {
      ListsFollow(message.factions, s, factions, lifecycle.presence, rows);
      WantedAreFrom(message.conflicts, s, factions, lifecycle.conflicts);
    }

    lemma ThreatStaysRight(message: Message, s: SystemId, before: T.Db, statements: seq<T.Statement>)
      requires Valid() && RowsFollow(message, s) && DistinctNames(message.factions)
      requires T.History(before, statements, threat.View())
      ensures T.Maintained(before, s) ==> T.Maintained(threat.View(), s) && ThreatFollows(message, s)
    {
      if T.Maintained(before, s) {
        T.HistoryMaintains(before, statements, threat.View(), s);
        ThreatIsTheMessages(message, s);
      }
    }

    lemma ThreatIsTheMessages(message: Message, s: SystemId)
      requires Valid() && RowsFollow(message, s) && DistinctNames(message.factions)
      requires T.Maintained(threat.View(), s)
      ensures ThreatFollows(message, s)
    {
      T.MaintainedShows(threat.View(), s);
      ContestFollows(message.factions, s, factions, lifecycle.presence, rows, threat.View());
    }

    /** What the worker's tables say about the other systems. */
    ghost predicate OtherSystemsKept(s: SystemId, presence: set<RowKey>, rowsBefore: map<RowKey, Row>,
                                     conflicts: map<E.RowId, E.Conflict>)
      reads this, lifecycle
    {
      && PresenceKept(s, presence, lifecycle.presence) && RowsKept(s, rowsBefore, rows)
      && SameElsewhere(s, conflicts, lifecycle.conflicts)
    }

    method UpsertFactions(entries: seq<FactionEntry>)
      requires Valid()
      modifies this`factions, this`nextFactionId
      ensures Valid()
      ensures factions.Keys == old(factions).Keys + set i | 0 <= i < |entries| :: entries[i].name
      ensures forall n | n in old(factions) :: factions[n] == old(factions)[n]
    {
      var n := 0;
      while n < |entries|
        invariant n <= |entries| && Valid()
        invariant factions.Keys == old(factions).Keys + set i | 0 <= i < n :: entries[i].name
        invariant forall a | a in old(factions) :: factions[a] == old(factions)[a]
      {
        if entries[n].name !in factions {
          factions := factions[entries[n].name := nextFactionId];
          nextFactionId := nextFactionId + 1;
        }
        n := n + 1;
      }
    }

    method UpsertSystemFactions(s: SystemId, ids: set<FactionId>) returns (ghost changes: seq<E.Change>)
      modifies lifecycle
      ensures E.History(old(lifecycle.View()), changes, lifecycle.View()) && E.Quiet(changes)
      ensures PresenceIs(lifecycle.presence, s, ids) && PresenceKept(s, old(lifecycle.presence), lifecycle.presence)
      ensures lifecycle.states == old(lifecycle.states) && lifecycle.conflicts == old(lifecycle.conflicts)
      ensures PresenceIs(old(lifecycle.presence), s, ids) ==> lifecycle.outbox == old(lifecycle.outbox)
    {
      var keys := PresenceKeys(s, ids);
      ghost var first := lifecycle.InsertPresence(keys);
      ghost var middle := lifecycle.View();
      var stale := StalePresence(lifecycle.presence, s, ids);
      ghost var second := lifecycle.DeletePresence(stale);
      PresenceReplaced(old(lifecycle.presence), s, ids);
      HistoryAppend(old(lifecycle.View()), first, middle, second, lifecycle.View());
      changes := first + second;
    }

    method CleanupFactionStates(s: SystemId, ids: set<FactionId>)
      returns (ghost changes: seq<E.Change>, ghost statements: seq<T.Statement>)
      requires Valid() && s in threat.controlling
      modifies this`rows, lifecycle, threat
      ensures Valid() && rows == old(rows) - StaleStates(old(rows), s, ids)
      ensures E.History(old(lifecycle.View()), changes, lifecycle.View()) && E.Quiet(changes)
      ensures T.History(old(threat.View()), statements, threat.View())
      ensures lifecycle.presence == old(lifecycle.presence) && lifecycle.conflicts == old(lifecycle.conflicts)
      ensures threat.controlling == old(threat.controlling)
      ensures StaleStates(old(rows), s, ids) == {} ==>
                lifecycle.outbox == old(lifecycle.outbox) && threat.View() == old(threat.View())
    {
      var stale := StaleStates(rows, s, ids);
      ProjectionsDrop(rows, stale);
      rows := rows - stale;
      changes := lifecycle.DeleteStateRows(stale);
      statements := threat.DeleteRows(stale);
    }

    method SyncController(message: Message, s: SystemId) returns (ghost statements: seq<T.Statement>)
      requires Valid() && s in threat.controlling && message.Names() <= factions.Keys
      modifies threat
      ensures Valid() && ControllerFollows(message, s)
      ensures ControllersAre(message, s, factions, old(threat.controlling), threat.controlling)
      ensures T.History(old(threat.View()), statements, threat.View())
      ensures old(ControllerFollows(message, s)) ==> threat.View() == old(threat.View())
    {
      statements := [];
      NamingIsIn(message);
      if message.systemFaction.Some? && message.systemFaction.value != ""
        && message.systemFaction.value in message.Names()
      {
        statements := threat.SetController(s, Some(factions[message.systemFaction.value]));
      }
    }

    method UpsertFactionStates(wanted: map<RowKey, Content>, s: SystemId, now: int)
      returns (ghost changes: seq<E.Change>, ghost statements: seq<T.Statement>)
      requires Valid() && s in threat.controlling && forall k | k in wanted :: k.system == s
      modifies this`rows, lifecycle, threat
      ensures Valid() && rows == Upserted(old(rows), wanted, now)
      ensures E.History(old(lifecycle.View()), changes, lifecycle.View()) && E.Quiet(changes)
      ensures T.History(old(threat.View()), statements, threat.View())
      ensures lifecycle.presence == old(lifecycle.presence) && lifecycle.conflicts == old(lifecycle.conflicts)
      ensures threat.controlling == old(threat.controlling)
      ensures Inserted(old(rows), wanted, now) == map[] && Updated(old(rows), wanted, now) == map[] ==>
                lifecycle.outbox == old(lifecycle.outbox) && threat.View() == old(threat.View())
    {
      var inserted, updated := Inserted(rows, wanted, now), Updated(rows, wanted, now);
      UpsertProjections(rows, wanted, now);
      rows := rows + inserted + updated;
      changes := lifecycle.PutStateRows(Lists(inserted + updated));
      statements := threat.UpsertRows(Influences(inserted), Influences(updated));
    }

    // -------------------------------------------------------------- conflicts

    /** Insert the conflict or update the row of the same system, faction and opponent. */
    method UpsertConflict(row: E.Conflict, ghost start: E.Tables, ghost changes: seq<E.Change>)
      returns (id: E.RowId, ghost longer: seq<E.Change>)
      requires Valid() && row.opponent.Some? && E.Accepted(start, changes, lifecycle.View())
      modifies this`nextConflictId, lifecycle`conflicts, lifecycle`outbox
      ensures Valid() && E.Accepted(start, longer, lifecycle.View())
      ensures lifecycle.conflicts == old(lifecycle.conflicts)[id := row]
      ensures forall i | i in old(lifecycle.conflicts) :: i == id <==> SamePair(old(lifecycle.conflicts[i]), row)
      ensures row in old(lifecycle.conflicts).Values ==>
                lifecycle.conflicts == old(lifecycle.conflicts) && lifecycle.outbox == old(lifecycle.outbox)
    {
      if i :| i in lifecycle.conflicts && SamePair(lifecycle.conflicts[i], row) {
        id := i;
      } else {
        id := nextConflictId;
        nextConflictId := nextConflictId + 1;
      }
      ghost var before := lifecycle.View();
      UpsertKeepsPairs(lifecycle.conflicts, id, row);
      lifecycle.PutConflictRow(id, row);
      E.AcceptedOneMore(start, changes, before, E.PutConflict(id, row));
      longer := changes + [E.PutConflict(id, row)];
    }

    method StoreNext(wanted: seq<Option<E.Conflict>>, n: nat, ghost done: Stored,
                     ghost before: map<E.RowId, E.Conflict>, ghost start: E.Tables, ghost changes: seq<E.Change>)
      returns (id: E.RowId, ghost longer: seq<E.Change>)
      requires Valid() && PairsDiffer(wanted) && n < |wanted| && wanted[n].Some? && wanted[n].value.opponent.Some?
      requires StoredUpTo(wanted, lifecycle.conflicts, n, done)
               && OthersKept(lifecycle.conflicts, done.index.Keys, before)
      requires E.Accepted(start, changes, lifecycle.View())
      modifies this`nextConflictId, lifecycle`conflicts, lifecycle`outbox
      ensures Valid() && E.Accepted(start, longer, lifecycle.View())
      ensures StoredUpTo(wanted, lifecycle.conflicts, n + 1, done.Add(n, id))
      ensures OthersKept(lifecycle.conflicts, done.index.Keys + {id}, before)
      ensures wanted[n].value in old(lifecycle.conflicts).Values ==>
                lifecycle.conflicts == old(lifecycle.conflicts) && lifecycle.outbox == old(lifecycle.outbox)
    {
      id, longer := UpsertConflict(wanted[n].value, start, changes);
      StoreOneMore(wanted, old(lifecycle.conflicts), n, done, id);
      OneMoreKept(old(lifecycle.conflicts), done.index.Keys, before, id, wanted[n].value);
    }

    method StoreOrSkip(wanted: seq<Option<E.Conflict>>, n: nat, kept: set<E.RowId>, ghost done: Stored,
                       ghost before: map<E.RowId, E.Conflict>, ghost start: E.Tables, ghost changes: seq<E.Change>,
                       ghost there: bool)
      returns (keptAfter: set<E.RowId>, ghost doneAfter: Stored, ghost longer: seq<E.Change>)
      requires Valid() && PairsDiffer(wanted) && n < |wanted|
      requires wanted[n].Some? ==>
               wanted[n].value.opponent.Some? && (there ==> wanted[n].value in lifecycle.conflicts.Values)
      requires StoredUpTo(wanted, lifecycle.conflicts, n, done) && kept == done.index.Keys
               && OthersKept(lifecycle.conflicts, kept, before)
      requires E.Accepted(start, changes, lifecycle.View())
      modifies this`nextConflictId, lifecycle`conflicts, lifecycle`outbox
      ensures Valid() && E.Accepted(start, longer, lifecycle.View())
      ensures StoredUpTo(wanted, lifecycle.conflicts, n + 1, doneAfter) && keptAfter == doneAfter.index.Keys
      ensures OthersKept(lifecycle.conflicts, keptAfter, before)
      ensures there ==> lifecycle.conflicts == old(lifecycle.conflicts) && lifecycle.outbox == old(lifecycle.outbox)
    {
      keptAfter, doneAfter, longer := kept, done, changes;
      if wanted[n].Some? {
        var id;
        id, longer := StoreNext(wanted, n, done, before, start, changes);
        doneAfter, keptAfter := done.Add(n, id), kept + {id};
      } else {
        SkipOne(wanted, lifecycle.conflicts, n, done);
      }
    }

    method StoreConflicts(wanted: seq<Option<E.Conflict>>, ghost s: SystemId)
      returns (kept: set<E.RowId>, ghost done: Stored, ghost changes: seq<E.Change>)
      requires Valid() && PairsDiffer(wanted) && AllIn(wanted, s)
      modifies this`nextConflictId, lifecycle`conflicts, lifecycle`outbox
      ensures Valid() && E.Accepted(old(lifecycle.View()), changes, lifecycle.View())
      ensures StoredUpTo(wanted, lifecycle.conflicts, |wanted|, done) && kept == done.index.Keys
      ensures OthersKept(lifecycle.conflicts, kept, old(lifecycle.conflicts))
      ensures AllThere(wanted, old(lifecycle.conflicts)) ==>
                lifecycle.conflicts == old(lifecycle.conflicts) && lifecycle.outbox == old(lifecycle.outbox)
    {
      kept, done, changes := {}, Stored(map[], map[]), [];
      ghost var before, agreed := lifecycle.View(), AllThere(wanted, lifecycle.conflicts);
      var n := 0;
      while n < |wanted|
        invariant n <= |wanted| && Valid() && E.Accepted(before, changes, lifecycle.View())
        invariant StoredUpTo(wanted, lifecycle.conflicts, n, done) && kept == done.index.Keys
        invariant OthersKept(lifecycle.conflicts, kept, before.conflicts)
        invariant agreed ==> lifecycle.conflicts == before.conflicts && lifecycle.outbox == before.outbox
      {
        kept, done, changes := StoreOrSkip(wanted, n, kept, done, before.conflicts, before, changes, agreed);
        n := n + 1;
      }
    }

    /** Store the wanted conflicts and find the rows of the system that are none of them. */
    method StoreAndFindStale(wanted: seq<Option<E.Conflict>>, s: SystemId)
      returns (stale: set<E.RowId>, ghost changes: seq<E.Change>)
      requires Valid() && PairsDiffer(wanted) && AllIn(wanted, s)
      modifies this`nextConflictId, lifecycle`conflicts, lifecycle`outbox
      ensures Valid() && E.Accepted(old(lifecycle.View()), changes, lifecycle.View())
              && stale <= lifecycle.conflicts.Keys
      ensures ConflictsAre(wanted, s, lifecycle.conflicts - stale)
      ensures SameElsewhere(s, old(lifecycle.conflicts), lifecycle.conflicts - stale)
      ensures ConflictsAre(wanted, s, old(lifecycle.conflicts)) ==>
                stale == {} && lifecycle.conflicts == old(lifecycle.conflicts)
                  && lifecycle.outbox == old(lifecycle.outbox)
    {
      var kept;
      ghost var done;
      kept, done, changes := StoreConflicts(wanted, s);
      stale := StaleRows(s, lifecycle.conflicts, kept);
      LeftAreWanted(wanted, s, lifecycle.conflicts, done, stale);
      OtherSystemsLeft(wanted, s, old(lifecycle.conflicts), lifecycle.conflicts, done, stale);
      if ConflictsAre(wanted, s, old(lifecycle.conflicts)) {
        WantedAreThere(wanted, s, old(lifecycle.conflicts));
        NothingStale(wanted, s, lifecycle.conflicts, done);
      }
    }

    method UpsertConflicts(wanted: seq<Option<E.Conflict>>, s: SystemId) returns (ghost changes: seq<E.Change>)
      requires Valid() && PairsDiffer(wanted) && AllIn(wanted, s)
      modifies this`nextConflictId, lifecycle
      ensures Valid() && E.Accepted(old(lifecycle.View()), changes, lifecycle.View())
      ensures ConflictsAre(wanted, s, lifecycle.conflicts)
              && SameElsewhere(s, old(lifecycle.conflicts), lifecycle.conflicts)
      ensures lifecycle.presence == old(lifecycle.presence) && lifecycle.states == old(lifecycle.states)
      ensures ConflictsAre(wanted, s, old(lifecycle.conflicts)) ==>
                lifecycle.conflicts == old(lifecycle.conflicts) && lifecycle.outbox == old(lifecycle.outbox)
    {
      var stale;
      stale, changes := StoreAndFindStale(wanted, s);
      ghost var middle, left := lifecycle.View(), lifecycle.conflicts - stale;
      ghost var second := lifecycle.DeleteConflictRows(stale);
      assert lifecycle.conflicts == left;
      E.AcceptedAppend(old(lifecycle.View()), changes, middle, second, lifecycle.View());
      changes := changes + second;
    }

    /** The conflicts of a message between known factions. */
    method StoreConflictsOf(message: Message, s: SystemId) returns (ghost changes: seq<E.Change>)
      requires Valid() && Acceptable(message, factions.Keys)
      modifies this`nextConflictId, lifecycle
      ensures Valid() && E.Accepted(old(lifecycle.View()), changes, lifecycle.View())
      ensures ConflictsFollow(message, s) && SameElsewhere(s, old(lifecycle.conflicts), lifecycle.conflicts)
      ensures lifecycle.presence == old(lifecycle.presence) && lifecycle.states == old(lifecycle.states)
      ensures old(ConflictsFollow(message, s)) ==>
                lifecycle.conflicts == old(lifecycle.conflicts) && lifecycle.outbox == old(lifecycle.outbox)
    {
      var wanted := WantedConflicts(message.conflicts, s, factions);
      AcceptablePairsDiffer(message, s, factions);
      changes := UpsertConflicts(wanted, s);
    }

    // -------------------------------------------------------------- one message

    /** The statements on presence, faction states and the controlling faction. */
    method StoreRows(message: Message, s: SystemId, now: int)
      returns (ghost changes: seq<E.Change>, ghost statements: seq<T.Statement>)
      requires Valid() && s in threat.controlling && DistinctNames(message.factions) && message.Names() <= factions.Keys
      modifies this`rows, lifecycle, threat
      ensures Valid() && RowsFollow(message, s) && ControllerFollows(message, s)
      ensures PresenceKept(s, old(lifecycle.presence), lifecycle.presence) && RowsKept(s, old(rows), rows)
      ensures ControllersAre(message, s, factions, old(threat.controlling), threat.controlling)
      ensures TimesFollow(old(rows), rows, s, now)
      ensures lifecycle.conflicts == old(lifecycle.conflicts)
      ensures E.History(old(lifecycle.View()), changes, lifecycle.View()) && E.Quiet(changes)
      ensures T.History(old(threat.View()), statements, threat.View())
      ensures old(RowsFollow(message, s) && ControllerFollows(message, s)) ==>
                rows == old(rows) && lifecycle.outbox == old(lifecycle.outbox) && threat.View() == old(threat.View())
    {
      NamesKnown(message, factions.Keys);
      var ids := Ids(message.factions, factions);
      var wanted := WantedRows(message.factions, s, factions);
      WantedRowsOf(message.factions, s, factions);
      changes, statements := RunStatements(message, s, ids, wanted, now);
      RowsReplaced(message.factions, s, factions, old(lifecycle.presence), old(rows), lifecycle.presence, now);
      ReplacedTimes(old(rows), s, ids, wanted, now);
    }

    method RunStatements(message: Message, s: SystemId, ids: set<FactionId>, wanted: map<RowKey, Content>, now: int)
      returns (ghost changes: seq<E.Change>, ghost statements: seq<T.Statement>)
      requires Valid() && s in threat.controlling && message.Names() <= factions.Keys
               && forall k | k in wanted :: k.system == s
      modifies this`rows, lifecycle, threat
      ensures Valid() && ControllerFollows(message, s)
      ensures PresenceIs(lifecycle.presence, s, ids) && PresenceKept(s, old(lifecycle.presence), lifecycle.presence)
      ensures rows == Upserted(old(rows) - StaleStates(old(rows), s, ids), wanted, now)
      ensures ControllersAre(message, s, factions, old(threat.controlling), threat.controlling)
      ensures lifecycle.conflicts == old(lifecycle.conflicts)
      ensures E.History(old(lifecycle.View()), changes, lifecycle.View()) && E.Quiet(changes)
      ensures T.History(old(threat.View()), statements, threat.View())
      ensures PresenceIs(old(lifecycle.presence), s, ids) && old(ControllerFollows(message, s))
              && NothingNew(old(rows), s, ids, wanted, now) ==>
                lifecycle.outbox == old(lifecycle.outbox) && threat.View() == old(threat.View())
    {
      DropNothing(rows);
      changes, statements := KeepOnly(s, ids);
      ghost var middleE, middleT := lifecycle.View(), threat.View();
      ghost var written, refreshed := SyncAndUpsert(message, s, wanted, now);
      HistoryAppend(old(lifecycle.View()), changes, middleE, written, lifecycle.View());
      T.HistoryAppend(old(threat.View()), statements, middleT, refreshed, threat.View());
      changes, statements := changes + written, statements + refreshed;
    }

    method KeepOnly(s: SystemId, ids: set<FactionId>)
      returns (ghost changes: seq<E.Change>, ghost statements: seq<T.Statement>)
      requires Valid() && s in threat.controlling
      modifies this`rows, lifecycle, threat
      ensures Valid() && rows == old(rows) - StaleStates(old(rows), s, ids)
      ensures PresenceIs(lifecycle.presence, s, ids) && PresenceKept(s, old(lifecycle.presence), lifecycle.presence)
      ensures lifecycle.conflicts == old(lifecycle.conflicts) && threat.controlling == old(threat.controlling)
      ensures E.History(old(lifecycle.View()), changes, lifecycle.View()) && E.Quiet(changes)
      ensures T.History(old(threat.View()), statements, threat.View())
      ensures PresenceIs(old(lifecycle.presence), s, ids) && StaleStates(old(rows), s, ids) == {} ==>
                lifecycle.outbox == old(lifecycle.outbox) && threat.View() == old(threat.View())
    {
      changes := UpsertSystemFactions(s, ids);
      ghost var middle := lifecycle.View();
      ghost var cleaned;
      cleaned, statements := CleanupFactionStates(s, ids);
      HistoryAppend(old(lifecycle.View()), changes, middle, cleaned, lifecycle.View());
      changes := changes + cleaned;
    }

    method SyncAndUpsert(message: Message, s: SystemId, wanted: map<RowKey, Content>, now: int)
      returns (ghost changes: seq<E.Change>, ghost statements: seq<T.Statement>)
      requires Valid() && s in threat.controlling && message.Names() <= factions.Keys
               && forall k | k in wanted :: k.system == s
      modifies this`rows, lifecycle, threat
      ensures Valid() && ControllerFollows(message, s) && rows == Upserted(old(rows), wanted, now)
      ensures ControllersAre(message, s, factions, old(threat.controlling), threat.controlling)
      ensures lifecycle.presence == old(lifecycle.presence) && lifecycle.conflicts == old(lifecycle.conflicts)
      ensures E.History(old(lifecycle.View()), changes, lifecycle.View()) && E.Quiet(changes)
      ensures T.History(old(threat.View()), statements, threat.View())
      ensures old(ControllerFollows(message, s)) && Inserted(old(rows), wanted, now) == map[]
              && Updated(old(rows), wanted, now) == map[] ==>
                lifecycle.outbox == old(lifecycle.outbox) && threat.View() == old(threat.View())
    {
      statements := SyncController(message, s);
      ghost var middle := threat.View();
      ghost var written;
      changes, written := UpsertFactionStates(wanted, s, now);
      T.HistoryAppend(old(threat.View()), statements, middle, written, threat.View());
      statements := statements + written;
    }

    /** The statements of a message that no statement rejects. */
    method Store(message: Message, s: SystemId, now: int)
      returns (ghost changes: seq<E.Change>, ghost statements: seq<T.Statement>)
      requires Valid() && s in threat.controlling && Acceptable(message, factions.Keys + message.Names())
      modifies this, lifecycle, threat
      ensures Valid() && E.Accepted(old(lifecycle.View()), changes, lifecycle.View())
      ensures T.History(old(threat.View()), statements, threat.View())
      ensures ControllersAre(message, s, factions, old(threat.controlling), threat.controlling)
      ensures TimesFollow(old(rows), rows, s, now)
      ensures Follows(message, s) && OtherSystemsKept(s, old(lifecycle.presence), old(rows), old(lifecycle.conflicts))
      ensures forall n | n in old(factions) :: n in factions && factions[n] == old(factions)[n]
      ensures old(Follows(message, s)) ==>
                && lifecycle.outbox == old(lifecycle.outbox) && threat.outbox == old(threat.outbox)
                && rows == old(rows) && lifecycle.conflicts == old(lifecycle.conflicts)
                && threat.threats == old(threat.threats)
      ensures factions.Keys == old(factions).Keys + message.Names()
    {
      if RowsFollow(message, s) {
        NamesFollow(message, s, factions, lifecycle.presence, rows);
      }
      UpsertFactions(message.factions);
      SameFactions(old(factions), factions);
      changes, statements := StoreKnown(message, s, now);
    }

    /** The same when every faction of the message has its identifier. */
    method StoreKnown(message: Message, s: SystemId, now: int)
      returns (ghost changes: seq<E.Change>, ghost statements: seq<T.Statement>)
      requires Valid() && s in threat.controlling && Acceptable(message, factions.Keys)
               && message.Names() <= factions.Keys
      modifies this`rows, this`nextConflictId, lifecycle, threat
      ensures Valid() && E.Accepted(old(lifecycle.View()), changes, lifecycle.View())
      ensures T.History(old(threat.View()), statements, threat.View())
      ensures ControllersAre(message, s, factions, old(threat.controlling), threat.controlling)
      ensures TimesFollow(old(rows), rows, s, now)
      ensures Follows(message, s) && OtherSystemsKept(s, old(lifecycle.presence), old(rows), old(lifecycle.conflicts))
      ensures old(Follows(message, s)) ==>
                && lifecycle.outbox == old(lifecycle.outbox) && threat.outbox == old(threat.outbox)
                && rows == old(rows) && lifecycle.conflicts == old(lifecycle.conflicts)
                && threat.threats == old(threat.threats)
    {
      changes, statements := StoreRows(message, s, now);
      ghost var middle := lifecycle.View();
      E.QuietIsAccepted(old(lifecycle.View()), changes, middle);
      ghost var stored := StoreConflictsOf(message, s);
      E.AcceptedAppend(old(lifecycle.View()), changes, middle, stored, lifecycle.View());
      changes := changes + stored;
    }

    /** The same, and what it amounts to. */
    method StoreMessage(message: Message, s: SystemId, now: int)
      returns (ghost changes: seq<E.Change>, ghost statements: seq<T.Statement>)
      requires Valid() && s in threat.controlling && Acceptable(message, factions.Keys + message.Names())
      modifies this, lifecycle, threat
      ensures Valid() && E.Accepted(old(lifecycle.View()), changes, lifecycle.View())
      ensures T.History(old(threat.View()), statements, threat.View())
      ensures ControllersAre(message, s, factions, old(threat.controlling), threat.controlling)
      ensures Follows(message, s) && AmountsTo(message, s) && TimesFollow(old(rows), rows, s, now)
      ensures OtherSystemsKept(s, old(lifecycle.presence), old(rows), old(lifecycle.conflicts))
      ensures forall n | n in old(factions) :: n in factions && factions[n] == old(factions)[n]
      ensures factions.Keys == old(factions).Keys + message.Names()
      ensures old(T.Maintained(threat.View(), s)) ==> T.Maintained(threat.View(), s) && ThreatFollows(message, s)
      ensures old(Follows(message, s)) ==>
                && lifecycle.outbox == old(lifecycle.outbox) && threat.outbox == old(threat.outbox)
                && rows == old(rows) && lifecycle.conflicts == old(lifecycle.conflicts)
                && threat.threats == old(threat.threats)
    {
      ghost var before := threat.View();
      changes, statements := Store(message, s, now);
      Amounts(message, s);
      ThreatStaysRight(message, s, before, statements);
    }

    /** Process a message about the factions of a system. */
    method Process(message: Message, s: SystemId, now: int)
      returns (ok: bool, ghost changes: seq<E.Change>, ghost statements: seq<T.Statement>)
      requires Valid() && s in threat.controlling
      modifies this, lifecycle, threat
      ensures Valid() && E.History(old(lifecycle.View()), changes, lifecycle.View())
              && E.Accepted(old(lifecycle.View()), changes, lifecycle.View())
      ensures threat.controlling.Keys == old(threat.controlling).Keys
      ensures T.History(old(threat.View()), statements, threat.View())
      // rejected or without factions: nothing happened
      ensures ok == (message.factions == [] || Acceptable(message, old(factions).Keys + message.Names()))
      ensures !ok || message.factions == [] ==>
                factions == old(factions) && rows == old(rows) && lifecycle.View() == old(lifecycle.View())
                  && threat.View() == old(threat.View())
      // otherwise the system's rows follow from the message, and nothing else changed
      ensures ok && message.factions != [] ==>
                && Follows(message, s) && AmountsTo(message, s) && TimesFollow(old(rows), rows, s, now)
                && ControllersAre(message, s, factions, old(threat.controlling), threat.controlling)
                && factions.Keys == old(factions).Keys + message.Names()
      ensures forall n | n in old(factions) :: n in factions && factions[n] == old(factions)[n]
      ensures OtherSystemsKept(s, old(lifecycle.presence), old(rows), old(lifecycle.conflicts))
      // a threat view that was right is right, and shows a threat exactly if the message contains one
      ensures old(T.Maintained(threat.View(), s)) ==>
                T.Maintained(threat.View(), s) && (ok && message.factions != [] ==> ThreatFollows(message, s))
      // what is there already is not announced again
      ensures old(Follows(message, s)) ==>
                && lifecycle.outbox == old(lifecycle.outbox) && threat.outbox == old(threat.outbox)
                && rows == old(rows) && lifecycle.conflicts == old(lifecycle.conflicts)
                && threat.threats == old(threat.threats)
    {
      ok, changes, statements := true, [], [];
      if |message.factions| == 0 {
        return;
      }
      if !Acceptable(message, factions.Keys + message.Names()) {
        ok := false;
        return;
      }
      changes, statements := StoreMessage(message, s, now);
      E.AcceptedIsHistory(old(lifecycle.View()), changes, lifecycle.View());
    }
  }

  lemma NamesFollow(message: Message, s: SystemId, factions: map<string, FactionId>, presence: set<RowKey>,
                    rows: map<RowKey, Row>)
    requires RowsAre(message.factions, s, factions, presence, rows)
    ensures message.Names() <= factions.Keys
  {
  }

  lemma SameFactions(before: map<string, FactionId>, after: map<string, FactionId>)
    requires forall n | n in before :: n in after && after[n] == before[n]
    ensures after.Keys == before.Keys ==> after == before
  {
  }

  datatype Delivery = Delivery(message: Message, system: SystemId, now: int)

  /** The names known before delivery `n`: those of the messages taken till then. */
  function KnownNames(deliveries: seq<Delivery>, n: nat): set<string>
    requires n <= |deliveries|
    decreases n, 0
  {
    if n == 0 then {}
    else if Taken(deliveries, n - 1) then KnownNames(deliveries, n - 1) + deliveries[n - 1].message.Names()
    else KnownNames(deliveries, n - 1)
  }

  /** The message has factions, and no statement rejects it. */
  predicate Taken(deliveries: seq<Delivery>, n: nat)
    requires n < |deliveries|
    decreases n, 1
  {
    var message := deliveries[n].message;
    message.factions != [] && Acceptable(message, KnownNames(deliveries, n) + message.Names())
  }

  /** Delivery `n` is the latest one of its system, of the first `m`, that was taken. */
  predicate IsLatest(deliveries: seq<Delivery>, n: nat, m: nat)
    requires m <= |deliveries|
  {
    n < m && Taken(deliveries, n)
    && forall later: nat | n < later < m && deliveries[later].system == deliveries[n].system ::
         !Taken(deliveries, later)
  }

  lemma {:induction false} KnownNamesGrow(deliveries: seq<Delivery>, i: nat, n: nat)
    requires i <= n <= |deliveries|
    ensures KnownNames(deliveries, i) <= KnownNames(deliveries, n)
    decreases n - i
  {
    if i < n {
      KnownNamesGrow(deliveries, i + 1, n);
    }
  }

  // what the worker's tables say, but for what follows from the rows
  datatype Snapshot = Snapshot(
    factions: map<string, FactionId>,
    presence: set<RowKey>,
    rows: map<RowKey, Row>,
    conflicts: map<E.RowId, E.Conflict>,
    controlling: map<SystemId, Option<FactionId>>)
  {
    /** What a message said of its system, its conflicts being those between the given factions. */
    ghost predicate Say(delivery: Delivery, names: set<string>) {
      var message, s := delivery.message, delivery.system;
      && RowsAre(message.factions, s, factions, presence, rows) && DistinctNames(message.factions)
      && ConflictsFrom(message.conflicts, s, factions, names, conflicts) && names <= factions.Keys
      && (NamesController(message) ==>
            message.systemFaction.value in factions && s in controlling
            && controlling[s] == Some(factions[message.systemFaction.value]))
    }

    /** The tables after a message about `s`, as far as other systems are concerned. */
    ghost predicate Precede(after: Snapshot, s: SystemId) {
      && (forall n | n in factions :: n in after.factions && after.factions[n] == factions[n])
      && PresenceKept(s, presence, after.presence) && RowsKept(s, rows, after.rows)
      && SameElsewhere(s, conflicts, after.conflicts)
      && forall t | t in controlling && t != s :: t in after.controlling && after.controlling[t] == controlling[t]
    }
  }

  lemma StillSay(before: Snapshot, after: Snapshot, s: SystemId, delivery: Delivery, names: set<string>)
    requires before.Say(delivery, names) && before.Precede(after, s) && delivery.system != s
    ensures after.Say(delivery, names)
  {
    RowsStay(delivery.message.factions, delivery.system, before, after, s);
    ConflictsStay(delivery.message.conflicts, delivery.system, before, after, s, names);
  }

  lemma RowsStay(entries: seq<FactionEntry>, t: SystemId, before: Snapshot, after: Snapshot, s: SystemId)
    requires RowsAre(entries, t, before.factions, before.presence, before.rows) && before.Precede(after, s) && t != s
    ensures RowsAre(entries, t, after.factions, after.presence, after.rows)
  {
    assert Ids(entries, before.factions) == Ids(entries, after.factions);
  }

  lemma ConflictsStay(entries: seq<ConflictEntry>, t: SystemId, before: Snapshot, after: Snapshot, s: SystemId,
                      names: set<string>)
    requires ConflictsFrom(entries, t, before.factions, names, before.conflicts) && before.Precede(after, s) && t != s
    ensures ConflictsFrom(entries, t, after.factions, names, after.conflicts)
  {
    EachStaysStored(entries, t, before, after, s, names);
    AllStayStated(entries, t, before, after, s, names);
  }

  lemma EachStaysStored(entries: seq<ConflictEntry>, t: SystemId, before: Snapshot, after: Snapshot, s: SystemId,
                        names: set<string>)
    requires EachIsStored(entries, t, before.factions, names, before.conflicts) && before.Precede(after, s) && t != s
    ensures EachIsStored(entries, t, after.factions, names, after.conflicts)
  {
    forall n | Among(entries, n, names)
      ensures exists id :: id in after.conflicts && IsConflict(entries[n], t, after.factions, after.conflicts[id])
    {
      var id :| id in before.conflicts && IsConflict(entries[n], t, before.factions, before.conflicts[id]);
      ConflictStays(entries[n], t, before, after, before.conflicts[id]);
      assert id in after.conflicts;
    }
  }

  lemma AllStayStated(entries: seq<ConflictEntry>, t: SystemId, before: Snapshot, after: Snapshot, s: SystemId,
                      names: set<string>)
    requires AllAreStated(entries, t, before.factions, names, before.conflicts) && before.Precede(after, s) && t != s
    ensures AllAreStated(entries, t, after.factions, names, after.conflicts)
  {
    forall id | id in after.conflicts && after.conflicts[id].system == t
      ensures exists n :: Among(entries, n, names) && IsConflict(entries[n], t, after.factions, after.conflicts[id])
    {
      assert id in before.conflicts;
      var n :| Among(entries, n, names) && IsConflict(entries[n], t, before.factions, before.conflicts[id]);
      ConflictStays(entries[n], t, before, after, before.conflicts[id]);
    }
  }

  lemma ConflictStays(e: ConflictEntry, t: SystemId, before: Snapshot, after: Snapshot, c: E.Conflict)
    requires forall n | n in before.factions :: n in after.factions && after.factions[n] == before.factions[n]
    requires IsConflict(e, t, before.factions, c)
    ensures IsConflict(e, t, after.factions, c)
  {
  }

  ghost predicate LatestAreSaid(deliveries: seq<Delivery>, n: nat, tables: Snapshot)
    requires n <= |deliveries|
  {
    forall i: nat | IsLatest(deliveries, i, n) :: tables.Say(deliveries[i], KnownNames(deliveries, i + 1))
  }

  lemma OneMoreSaid(deliveries: seq<Delivery>, n: nat, before: Snapshot, after: Snapshot)
    requires n < |deliveries| && LatestAreSaid(deliveries, n, before)
    requires !Taken(deliveries, n) ==> after == before
    requires Taken(deliveries, n) ==>
               before.Precede(after, deliveries[n].system) && after.Say(deliveries[n], KnownNames(deliveries, n + 1))
    ensures LatestAreSaid(deliveries, n + 1, after)
  {
    forall i: nat | IsLatest(deliveries, i, n + 1)
      ensures after.Say(deliveries[i], KnownNames(deliveries, i + 1))
    {
      if i < n {
        assert IsLatest(deliveries, i, n);
        if Taken(deliveries, n) {
          StillSay(before, after, deliveries[n].system, deliveries[i], KnownNames(deliveries, i + 1));
        }
      }
    }
  }

  /** The tables say of a system what its latest message said. */
  ghost predicate SaysAll(worker: Worker, delivery: Delivery, names: set<string>)
    reads worker, worker.lifecycle, worker.threat
  {
    var message, s := delivery.message, delivery.system;
    && worker.RowsFollow(message, s)
    && ListsAre(message.factions, s, worker.factions, worker.lifecycle.states)
    && ConflictsFrom(message.conflicts, s, worker.factions, names, worker.lifecycle.conflicts)
    && worker.ControllerFollows(message, s)
    && worker.ThreatFollows(message, s)
  }

  lemma LatestIsSaid(worker: Worker, delivery: Delivery, names: set<string>)
    requires worker.Valid() && worker.Tables().Say(delivery, names)
    requires T.Maintained(worker.threat.View(), delivery.system)
    ensures SaysAll(worker, delivery, names)
  {
    NamingIsIn(delivery.message);
    ListsFollow(delivery.message.factions, delivery.system, worker.factions, worker.lifecycle.presence, worker.rows);
    worker.ThreatIsTheMessages(delivery.message, delivery.system);
  }

  /** Process messages one after the other, from empty tables. Whatever they say and whichever are rejected, a consumer
      that folds the outbox knows the tables: the presence of factions, the pending or active states of each, and the
      open conflicts, these at every point of the history. The threat view and its events are right for every system,
      and the tables say of each system what its latest accepted message said. */
  method ProcessAll(systems: map<SystemId, Option<FactionId>>, deliveries: seq<Delivery>)
    returns (worker: Worker, ghost changes: seq<E.Change>, ghost statements: seq<T.Statement>)
    requires forall i | 0 <= i < |deliveries| :: deliveries[i].system in systems
    ensures worker.Valid() && E.History(E.EMPTY, changes, worker.lifecycle.View())
    ensures E.RebuiltPresence(worker.lifecycle.outbox) == worker.lifecycle.presence
    ensures forall key :: E.KnowsUnion(worker.lifecycle.View(), key)
    ensures E.UniqueThroughout(E.EMPTY, changes, worker.lifecycle.View())
    ensures E.ConflictsKnownThroughout(E.EMPTY, changes, worker.lifecycle.View())
    ensures E.ConflictsKnown(worker.lifecycle.View())
    ensures forall s :: T.Maintained(worker.threat.View(), s)
    ensures var start := T.EMPTY.(controlling := systems);
            T.History(start, statements, worker.threat.View())
            && forall s :: T.TellsThroughout(start, statements, worker.threat.View(), s)
    ensures forall n: nat | IsLatest(deliveries, n, |deliveries|) ::
              SaysAll(worker, deliveries[n], KnownNames(deliveries, n + 1))
  {
    worker := new Worker(systems);
    changes, statements := [], [];
    ghost var start := worker.threat.View();
    var n := 0;
    while n < |deliveries|
      invariant n <= |deliveries| && worker.Valid() && fresh(worker) && fresh(worker.lifecycle) && fresh(worker.threat)
      invariant worker.threat.controlling.Keys == systems.Keys && worker.factions.Keys == KnownNames(deliveries, n)
      invariant E.Accepted(E.EMPTY, changes, worker.lifecycle.View())
      invariant T.History(start, statements, worker.threat.View())
      invariant LatestAreSaid(deliveries, n, worker.Tables())
    {
      ghost var before, threatBefore := worker.lifecycle.View(), worker.threat.View();
      ghost var more, written := ProcessOne(worker, deliveries, n);
      E.AcceptedAppend(E.EMPTY, changes, before, more, worker.lifecycle.View());
      T.HistoryAppend(start, statements, threatBefore, written, worker.threat.View());
      changes, statements := changes + more, statements + written;
      n := n + 1;
    }
    ConsumerKnows(changes, worker.lifecycle.View());
    ViewIsRight(systems, statements, worker.threat.View());
    AllLatestAreSaid(worker, deliveries);
  }

  lemma AllLatestAreSaid(worker: Worker, deliveries: seq<Delivery>)
    requires worker.Valid() && LatestAreSaid(deliveries, |deliveries|, worker.Tables())
    requires forall s :: T.Maintained(worker.threat.View(), s)
    ensures forall n: nat | IsLatest(deliveries, n, |deliveries|) ::
              SaysAll(worker, deliveries[n], KnownNames(deliveries, n + 1))
  {
    forall n: nat | IsLatest(deliveries, n, |deliveries|)
      ensures SaysAll(worker, deliveries[n], KnownNames(deliveries, n + 1))
    {
      LatestIsSaid(worker, deliveries[n], KnownNames(deliveries, n + 1));
    }
  }

  lemma NothingYet(systems: map<SystemId, Option<FactionId>>)
    ensures forall s :: T.Maintained(T.EMPTY.(controlling := systems), s)
  {
    forall s ensures T.Maintained(T.EMPTY.(controlling := systems), s) {
      assert T.EMPTY.(controlling := systems).RowsOf(s) == map[];
    }
  }

  lemma ViewIsRight(systems: map<SystemId, Option<FactionId>>, statements: seq<T.Statement>, last: T.Db)
    requires T.History(T.EMPTY.(controlling := systems), statements, last)
    ensures forall s :: T.Maintained(last, s)
    ensures forall s :: T.TellsThroughout(T.EMPTY.(controlling := systems), statements, last, s)
  {
    NothingYet(systems);
    forall s ensures T.Maintained(last, s) && T.TellsThroughout(T.EMPTY.(controlling := systems), statements, last, s) {
      T.HistoryMaintains(T.EMPTY.(controlling := systems), statements, last, s);
      T.HistoryTells(T.EMPTY.(controlling := systems), statements, last, s);
    }
  }

  method ProcessOne(worker: Worker, deliveries: seq<Delivery>, n: nat)
    returns (ghost changes: seq<E.Change>, ghost statements: seq<T.Statement>)
    requires n < |deliveries| && worker.Valid() && deliveries[n].system in worker.threat.controlling
    requires worker.factions.Keys == KnownNames(deliveries, n) && LatestAreSaid(deliveries, n, worker.Tables())
    modifies worker, worker.lifecycle, worker.threat
    ensures worker.Valid() && E.Accepted(old(worker.lifecycle.View()), changes, worker.lifecycle.View())
    ensures T.History(old(worker.threat.View()), statements, worker.threat.View())
    ensures worker.threat.controlling.Keys == old(worker.threat.controlling).Keys
    ensures worker.factions.Keys == KnownNames(deliveries, n + 1)
    ensures LatestAreSaid(deliveries, n + 1, worker.Tables())
  {
    ghost var before := worker.Tables();
    var ok;
    ok, changes, statements := worker.Process(deliveries[n].message, deliveries[n].system, deliveries[n].now);
    if ok && deliveries[n].message.factions != [] {
      MessageIsSaid(worker, before, deliveries[n]);
    }
    OneMoreSaid(deliveries, n, before, worker.Tables());
  }

  lemma MessageIsSaid(worker: Worker, before: Snapshot, delivery: Delivery)
    requires worker.Valid() && worker.Follows(delivery.message, delivery.system)
    requires worker.AmountsTo(delivery.message, delivery.system) && DistinctNames(delivery.message.factions)
    requires ControllersAre(delivery.message, delivery.system, worker.factions, before.controlling,
                            worker.threat.controlling)
    requires delivery.system in before.controlling
    requires worker.OtherSystemsKept(delivery.system, before.presence, before.rows, before.conflicts)
    requires forall n | n in before.factions :: n in worker.factions && worker.factions[n] == before.factions[n]
    ensures before.Precede(worker.Tables(), delivery.system)
    ensures worker.Tables().Say(delivery, worker.factions.Keys)
  {
    NamingIsIn(delivery.message);
  }

  lemma ConsumerKnows(changes: seq<E.Change>, last: E.Tables)
    requires E.Accepted(E.EMPTY, changes, last)
    ensures E.History(E.EMPTY, changes, last) && E.UniqueThroughout(E.EMPTY, changes, last)
    ensures E.RebuiltPresence(last.outbox) == last.presence && forall key :: E.KnowsUnion(last, key)
    ensures E.ConflictsKnownThroughout(E.EMPTY, changes, last) && E.ConflictsKnown(last)
  {
    E.AcceptedIsHistory(E.EMPTY, changes, last);
    E.AcceptedIsUnique(E.EMPTY, changes, last);
    E.EventsRebuildConflicts(changes, last);
    E.PresenceRebuilds(E.EMPTY, changes, last);
    forall key ensures E.KnowsUnion(last, key) {
      E.EventsRebuildTables(changes, last, key);
    }
  }
}
