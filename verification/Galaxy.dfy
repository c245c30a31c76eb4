/** Identifiers shared by the tables about systems and factions. */
module Galaxy {
  type SystemId = nat
  type FactionId = nat

  // the unique (system, faction) pair of a row
  datatype RowKey = RowKey(system: SystemId, faction: FactionId)
}
