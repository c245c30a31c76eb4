/** Upserting a station that may be known by its market id, by its name in the system, or by both as two rows. */
module StationMerge {
  import opened Collections
  import opened Text

  type StationId = nat
  type SystemId = string

  // a value given, given as null, or not given at all
  datatype Field<T> = Absent | Null | Value(value: T)
  {
    function OrNull(): Option<T> { if Value? then Some(value) else None }
  }

  // `rest` stands for the columns the merge does not look at
  datatype Station = Station(name: string, system: SystemId, marketId: Option<int>, services: seq<string>,
                             servicesV2: seq<string>, rest: map<string, string>, updatedAt: int)

  datatype Data = Data(name: string, system: SystemId, marketId: Field<int>, services: Option<seq<string>>,
                       servicesV2: Option<seq<string>>, rest: map<string, string>)

  type Stations = map<StationId, Station>

  // -------------------------------------------------------------- services

  function LowerChar(c: char): char { if 'A' <= c <= 'Z' then c - 'A' + 'a' else c }

  function ToLower(s: string): string { seq(|s|, i requires 0 <= i < |s| => LowerChar(s[i])) }

  function CleanService(s: string): string { ToLower(Trim(s)) }

  predicate IsClean(s: string) {
    s != "" && !IsBlank(s[0]) && !IsBlank(s[|s| - 1]) && forall c | c in s :: LowerChar(c) == c
  }

  lemma CleaningCleans(s: string)
    ensures CleanService(s) == "" || IsClean(CleanService(s))
  {
  }

  lemma CleanStays(s: string)
    requires IsClean(s)
    ensures CleanService(s) == s
  {
  }

  function Cleaned(services: seq<string>): seq<string> {
    seq(|services|, i requires 0 <= i < |services| => CleanService(services[i]))
  }

  function NormalizeServices(services: seq<string>): seq<string> { NonEmpty(Cleaned(services)) }

  predicate AllClean(services: seq<string>) { forall i | 0 <= i < |services| :: IsClean(services[i]) }

  lemma {:induction false} NonEmptyOfClean(texts: seq<string>)
    requires forall i | 0 <= i < |texts| :: texts[i] == "" || IsClean(texts[i])
    ensures AllClean(NonEmpty(texts)) && (AllClean(texts) ==> NonEmpty(texts) == texts)
  {
    if texts != [] {
      NonEmptyOfClean(texts[1..]);
    }
  }

  lemma NormalizedIsClean(services: seq<string>)
    ensures AllClean(NormalizeServices(services))
  {
    forall i | 0 <= i < |services| ensures CleanService(services[i]) == "" || IsClean(CleanService(services[i])) {
      CleaningCleans(services[i]);
    }
    NonEmptyOfClean(Cleaned(services));
  }

  lemma NormalizeTwice(services: seq<string>)
    requires AllClean(services)
    ensures NormalizeServices(services) == services
  {
    forall i | 0 <= i < |services| ensures CleanService(services[i]) == services[i] {
      CleanStays(services[i]);
    }
    assert Cleaned(services) == services;
    NonEmptyOfClean(services);
  }

  /** The services of the catalogue. */
  function Supported(services: seq<string>, catalogue: set<string>): seq<string> {
    if services == [] then []
    else (if services[0] in catalogue then [services[0]] else []) + Supported(services[1..], catalogue)
  }

  function ServicesV2(services: seq<string>, catalogue: set<string>): seq<string> {
    Supported(NormalizeServices(services), catalogue)
  }

  // -------------------------------------------------------------- what is kept of a list of services

  const UPPER := "ABCDEFGHIJKLMNOPQRSTUVWXYZ"
  const LOWER := "abcdefghijklmnopqrstuvwxyz"

  /** A capital letter becomes its small one, and nothing else changes. */
  lemma LowerCharIs(c: char)
    ensures forall i | 0 <= i < 26 && UPPER[i] == c :: LowerChar(c) == LOWER[i]
    ensures c !in UPPER ==> LowerChar(c) == c
  {
    assert forall i | 0 <= i < 26 :: UPPER[i] == 'A' + i as char && LOWER[i] == 'a' + i as char;
    if 'A' <= c <= 'Z' {
      assert UPPER[c as int - 'A' as int] == c;
    }
  }

  /** A cleaned service is the text without the blanks around it, in lower case. */
  lemma CleanServiceIs(s: string) returns (i: nat, j: nat)
    ensures i <= j <= |s| && (forall k | 0 <= k < i || j <= k < |s| :: IsBlank(s[k]))
    ensures i < j ==> !IsBlank(s[i]) && !IsBlank(s[j - 1])
    ensures |CleanService(s)| == j - i && forall k | 0 <= k < j - i :: CleanService(s)[k] == LowerChar(s[i + k])
  {
    i, j := TrimmedIs(s);
  }

  /** Each service by itself is kept if the catalogue has it, and a list is taken piece by piece: the supported services
      are those of the catalogue, as often as given and in the order given. */
  lemma {:induction false} SupportedAreKept(a: seq<string>, b: seq<string>, catalogue: set<string>, service: string)
    ensures Supported([], catalogue) == []
    ensures Supported([service], catalogue) == if service in catalogue then [service] else []
    ensures Supported(a + b, catalogue) == Supported(a, catalogue) + Supported(b, catalogue)
  {
    assert [service][1..] == [];
    if a == [] {
      assert a + b == b;
    } else {
      SupportedAreKept(a[1..], b, catalogue, service);
      assert (a + b)[1..] == a[1..] + b;
      Associative(if a[0] in catalogue then [a[0]] else [], Supported(a[1..], catalogue), Supported(b, catalogue));
    }
  }

  /** Likewise the normalised services are the cleaned ones that are not blank, in the order given. */
  lemma NonBlankAreKept(a: seq<string>, b: seq<string>, service: string)
    ensures NormalizeServices([]) == []
    ensures NormalizeServices([service]) == if CleanService(service) == "" then [] else [CleanService(service)]
    ensures NormalizeServices(a + b) == NormalizeServices(a) + NormalizeServices(b)
  {
    assert Cleaned([service]) == [CleanService(service)];
    assert [CleanService(service)][1..] == [];
    assert Cleaned(a + b) == Cleaned(a) + Cleaned(b);
    NonEmptyAppend(Cleaned(a), Cleaned(b));
  }

  datatype WritePayload = WritePayload(services: Option<seq<string>>, servicesV2: Option<seq<string>>)

  function PrepareWrite(incoming: Option<seq<string>>, persisted: seq<string>, persistedV2: seq<string>,
                        catalogue: set<string>): WritePayload
  {
    if incoming.Some?
      then WritePayload(Some(NormalizeServices(incoming.value)), Some(ServicesV2(incoming.value, catalogue)))
    else if |persistedV2| == 0 && |persisted| > 0 then WritePayload(None, Some(ServicesV2(persisted, catalogue)))
    else WritePayload(None, None)
  }

  function WithPayload(data: Data, payload: WritePayload): Data {
    data.(services := payload.services, servicesV2 := payload.servicesV2)
  }

  // -------------------------------------------------------------- rows

  function Or<T>(given: Option<T>, otherwise: T): T { if given.Some? then given.value else otherwise }

  /** Only the columns that are given are set. */
  function Updated(row: Station, data: Data, now: int): Station {
    Station(data.name, data.system, if data.marketId.Absent? then row.marketId else data.marketId.OrNull(),
            Or(data.services, row.services), Or(data.servicesV2, row.servicesV2), row.rest + data.rest, now)
  }

  function Inserted(data: Data, now: int): Station {
    Station(data.name, data.system, data.marketId.OrNull(), Or(data.services, []), Or(data.servicesV2, []), data.rest,
            now)
  }

  predicate SamePlace(a: Station, b: Station) { a.system == b.system && a.name == b.name }

  predicate SameMarket(a: Station, b: Station) { a.marketId.Some? && a.marketId == b.marketId }

  /** Both unique constraints of the table. */
  predicate Unique(t: Stations) {
    forall a, b | a in t && b in t && a != b :: !SamePlace(t[a], t[b]) && !SameMarket(t[a], t[b])
  }

  predicate HasMarket(t: Stations, id: StationId, marketId: int) { id in t && t[id].marketId == Some(marketId) }

  predicate HasPlace(t: Stations, id: StationId, system: SystemId, name: string) {
    id in t && t[id].system == system && t[id].name == name
  }

  predicate IsByMarket(t: Stations, data: Data, found: Option<StationId>) {
    match found
    case Some(id) => data.marketId.Value? && HasMarket(t, id, data.marketId.value)
    case None => data.marketId.Value? ==> forall id | id in t :: !HasMarket(t, id, data.marketId.value)
  }

  predicate IsByPlace(t: Stations, data: Data, found: Option<StationId>) {
    match found
    case Some(id) => HasPlace(t, id, data.system, data.name)
    case None => forall id | id in t :: !HasPlace(t, id, data.system, data.name)
  }

  // -------------------------------------------------------------- what an upsert amounts to

  /** The rows other than `id` that hold the market id of the data. */
  function Holders(t: Stations, data: Data, id: StationId): set<StationId> {
    set h | h in t && h != id && data.marketId.Value? && t[h].marketId == Some(data.marketId.value)
  }

  ghost predicate Survives(t: Stations, data: Data, unused: StationId, id: StationId) {
    if exists p :: HasPlace(t, p, data.system, data.name) then HasPlace(t, id, data.system, data.name)
    else if data.marketId.Value? && exists m :: HasMarket(t, m, data.marketId.value)
      then HasMarket(t, id, data.marketId.value)
    else id == unused
  }

  function Written(t: Stations, data: Data, id: StationId, now: int, catalogue: set<string>): Station {
    if id in t then
      Updated(t[id], WithPayload(data, PrepareWrite(data.services, t[id].services, t[id].servicesV2, catalogue)), now)
    else Inserted(data, now)
  }

  /** One row receives the data, other holders of its market id go, and nothing else happens. */
  ghost predicate Merge(t: Stations, data: Data, unused: StationId, now: int, catalogue: set<string>, after: Stations,
                        id: StationId)
  {
    Survives(t, data, unused, id) && after == (t - Holders(t, data, id))[id := Written(t, data, id, now, catalogue)]
  }

  lemma InsertIsUnique(t: Stations, data: Data, unused: StationId, now: int)
    requires Unique(t) && IsByMarket(t, data, None) && IsByPlace(t, data, None)
    ensures Unique(t[unused := Inserted(data, now)])
  {
    forall a | a in t ensures !SamePlace(t[a], Inserted(data, now)) && !SameMarket(t[a], Inserted(data, now)) {
      assert !HasPlace(t, a, data.system, data.name);
      assert data.marketId.Value? ==> !HasMarket(t, a, data.marketId.value);
    }
  }

  /** Once no other row holds the market id, the row with the name or, if there is none, the one with the market id
      can take the data. */
  lemma UpdateIsUnique(t: Stations, data: Data, id: StationId, written: Data, now: int)
    requires Unique(t) && id in t && written.name == data.name && written.system == data.system
             && written.marketId == data.marketId
    requires HasPlace(t, id, data.system, data.name) || forall a | a in t :: !HasPlace(t, a, data.system, data.name)
    ensures var left := t - Holders(t, data, id); Unique(left[id := Updated(t[id], written, now)])
  {
    var left := t - Holders(t, data, id);
    var row := Updated(t[id], written, now);
    forall a | a in left && a != id ensures !SamePlace(t[a], row) && !SameMarket(t[a], row) {
      assert !SamePlace(t[a], t[id]) && !SameMarket(t[a], t[id]);
      assert a !in Holders(t, data, id);
      assert !HasPlace(t, a, data.system, data.name);
    }
  }

  /** At most one row can hold the market id. */
  lemma OldHolders(t: Stations, data: Data, id: StationId, byMarket: Option<StationId>)
    requires Unique(t) && IsByMarket(t, data, byMarket)
    ensures Holders(t, data, id) == if byMarket.Some? && byMarket.value != id then {byMarket.value} else {}
  {
    forall h | h in Holders(t, data, id) ensures byMarket == Some(h) {
      assert HasMarket(t, h, data.marketId.value);
      assert byMarket.Some? && h != byMarket.value ==> !SameMarket(t[h], t[byMarket.value]);
    }
  }

  // -------------------------------------------------------------- the table and its statements

  class StationTable {
    var stations: Stations
    var nextId: StationId
    const catalogue: set<string>

    constructor (services: set<string>)
      ensures Valid() && stations == map[] && catalogue == services
    {
      stations, nextId, catalogue := map[], 0, services;
    }

    ghost predicate Valid()
      reads this
    {
      Unique(stations) && forall id | id in stations :: id < nextId
    }

    method FindByMarketId(data: Data) returns (found: Option<StationId>)
      requires Valid()
      ensures IsByMarket(stations, data, found)
    {
      found := None;
      if data.marketId.Value? {
        if id :| id in stations && stations[id].marketId == Some(data.marketId.value) {
          found := Some(id);
        }
      }
    }

    method FindBySystemAndName(data: Data) returns (found: Option<StationId>)
      requires Valid()
      ensures IsByPlace(stations, data, found)
    {
      found := None;
      if id :| id in stations && stations[id].system == data.system && stations[id].name == data.name {
        found := Some(id);
      }
    }

    // The database accepts a statement only if both constraints hold after it.

    method InsertStation(data: Data, now: int) returns (id: StationId)
      requires Valid() && Unique(stations[nextId := Inserted(data, now)])
      modifies this
      ensures Valid() && id == old(nextId) && stations == old(stations)[id := Inserted(data, now)]
    {
      id := nextId;
      stations := stations[id := Inserted(data, now)];
      nextId := nextId + 1;
    }

    method UpdateStationById(id: StationId, data: Data, now: int)
      requires Valid() && id in stations && Unique(stations[id := Updated(stations[id], data, now)])
      modifies this`stations
      ensures Valid() && stations == old(stations)[id := Updated(old(stations)[id], data, now)]
    {
      stations := stations[id := Updated(stations[id], data, now)];
    }

    method DeleteStationById(id: StationId)
      requires Valid()
      modifies this`stations
      ensures Valid() && stations == old(stations) - {id}
    {
      stations := stations - {id};
    }

    /** Find by either identity; of two rows the one with the name survives and the other is deleted first. */
    method UpsertRegularStation(data: Data, now: int) returns (id: StationId)
      requires Valid()
      modifies this
      ensures Valid() && Merge(old(stations), data, old(nextId), now, catalogue, stations, id)
    {
      var byMarket := FindByMarketId(data);
      var byPlace := FindBySystemAndName(data);
      if byMarket.None? && byPlace.None? {
        InsertIsUnique(stations, data, nextId, now);
        id := InsertStation(data, now);
        return;
      }
      id := if byPlace.Some? then byPlace.value else byMarket.value;
      UpdateSurvivor(id, byMarket, data, now);
    }

    method UpdateSurvivor(id: StationId, byMarket: Option<StationId>, data: Data, now: int)
      requires Valid() && id in stations && IsByMarket(stations, data, byMarket)
      requires HasPlace(stations, id, data.system, data.name)
               || forall a | a in stations :: !HasPlace(stations, a, data.system, data.name)
      modifies this`stations
      ensures Valid() && stations ==
              (old(stations) - Holders(old(stations), data, id))[id := Written(old(stations), data, id, now, catalogue)]
    {
      var payload := PrepareWrite(data.services, stations[id].services, stations[id].servicesV2, catalogue);
      UpdateIsUnique(stations, data, id, WithPayload(data, payload), now);
      OldHolders(stations, data, id, byMarket);
      if byMarket.Some? && byMarket.value != id {
        DeleteStationById(byMarket.value);
      }
      assert stations == old(stations) - Holders(old(stations), data, id);
      UpdateStationById(id, WithPayload(data, payload), now);
    }

    method UpsertStation(data: Data, now: int) returns (id: StationId)
      requires Valid()
      modifies this
      ensures Valid() && Merge(old(stations), WithPayload(data, PrepareWrite(data.services, [], [], catalogue)),
                               old(nextId), now, catalogue, stations, id)
    {
      id := UpsertRegularStation(WithPayload(data, PrepareWrite(data.services, [], [], catalogue)), now);
    }
  }

  // -------------------------------------------------------------- what an upsert achieves

  lemma SurvivorIsNew(t: Stations, data: Data, unused: StationId, id: StationId)
    requires Survives(t, data, unused, id) && id !in t
    ensures IsByMarket(t, data, None) && IsByPlace(t, data, None) && id == unused
    ensures t - Holders(t, data, id) == t
  {
    if data.marketId.Value? {
      forall h | h in t ensures !HasMarket(t, h, data.marketId.value) {
      }
    }
    assert Holders(t, data, id) == {};
  }

  lemma SurvivorIsKnown(t: Stations, data: Data, unused: StationId, id: StationId)
    requires Survives(t, data, unused, id) && id in t && unused !in t
    ensures HasPlace(t, id, data.system, data.name) || forall a | a in t :: !HasPlace(t, a, data.system, data.name)
  {
  }

  lemma MergedIsUnique(t: Stations, data: Data, unused: StationId, now: int, catalogue: set<string>, after: Stations,
                       id: StationId)
    requires Unique(t) && unused !in t && Merge(t, data, unused, now, catalogue, after, id)
    ensures Unique(after)
  {
    if id in t {
      SurvivorIsKnown(t, data, unused, id);
      UpdateIsUnique(t, data, id,
                     WithPayload(data, PrepareWrite(data.services, t[id].services, t[id].servicesV2, catalogue)), now);
    } else {
      SurvivorIsNew(t, data, unused, id);
      InsertIsUnique(t, data, unused, now);
    }
  }

  /** After an upsert exactly one row has the name in the system; it has the market id of the data. At most one row
      was deleted, one that held this market id, and every other row is as before. */
  lemma MergedIdentity(t: Stations, data: Data, unused: StationId, now: int, catalogue: set<string>, after: Stations,
                       id: StationId)
    requires Unique(t) && unused !in t && Merge(t, data, unused, now, catalogue, after, id)
    ensures Unique(after)
    ensures forall other :: HasPlace(after, other, data.system, data.name) <==> other == id
    ensures data.marketId.Value? ==> forall other :: HasMarket(after, other, data.marketId.value) <==> other == id
    ensures forall other | other in after && other != id :: other in t && after[other] == t[other]
    ensures after.Keys <= t.Keys + {id} && |t.Keys - after.Keys| <= 1
    ensures forall gone | gone in t && gone !in after :: data.marketId.Value? && HasMarket(t, gone, data.marketId.value)
  {
    MergedIsUnique(t, data, unused, now, catalogue, after, id);
    MergedFrame(t, data, after, id, Written(t, data, id, now, catalogue));
    OnlyOne(after, data, id);
  }

  lemma MergedFrame(t: Stations, data: Data, after: Stations, id: StationId, row: Station)
    requires Unique(t) && after == (t - Holders(t, data, id))[id := row]
    ensures forall other | other in after && other != id :: other in t && after[other] == t[other]
    ensures after.Keys <= t.Keys + {id} && |t.Keys - after.Keys| <= 1
    ensures forall gone | gone in t && gone !in after :: data.marketId.Value? && HasMarket(t, gone, data.marketId.value)
  {
    AtMostOneHolder(t, data, id);
    Frame(t, Holders(t, data, id), id, row);
  }

  lemma Frame(t: Stations, gone: set<StationId>, id: StationId, row: Station)
    ensures var after := (t - gone)[id := row];
            && (forall other | other in after && other != id :: other in t && after[other] == t[other])
            && after.Keys <= t.Keys + {id}
            && (forall x | x in t && x !in after :: x in gone)
            && |t.Keys - after.Keys| <= |gone|
  {
    var after := (t - gone)[id := row];
    assert t.Keys - after.Keys <= gone;
    SubsetSize(t.Keys - after.Keys, gone);
  }

  lemma OnlyOne(t: Stations, data: Data, id: StationId)
    requires Unique(t) && HasPlace(t, id, data.system, data.name)
    ensures forall other :: HasPlace(t, other, data.system, data.name) <==> other == id
    ensures data.marketId.Value? && HasMarket(t, id, data.marketId.value) ==>
              forall other :: HasMarket(t, other, data.marketId.value) <==> other == id
  {
    forall other | other in t && other != id
      ensures !HasPlace(t, other, data.system, data.name)
      ensures data.marketId.Value? && HasMarket(t, id, data.marketId.value) ==>
              !HasMarket(t, other, data.marketId.value)
    {
      assert !SamePlace(t[other], t[id]) && !SameMarket(t[other], t[id]);
    }
  }

  /** The surviving row: what the message gives is stored, what it does not give stays, or is absent in a new row. */
  lemma GivenColumnsAreStored(t: Stations, data: Data, unused: StationId, now: int, catalogue: set<string>,
                              after: Stations, id: StationId, column: string)
    requires Unique(t) && unused !in t && Merge(t, data, unused, now, catalogue, after, id)
    ensures HasPlace(after, id, data.system, data.name) && after[id].updatedAt == now
    ensures data.marketId.Value? ==> after[id].marketId == Some(data.marketId.value)
    ensures data.marketId.Null? ==> after[id].marketId == None
    ensures data.marketId.Absent? ==> after[id].marketId == if id in t then t[id].marketId else None
    ensures column in data.rest ==> column in after[id].rest && after[id].rest[column] == data.rest[column]
    ensures column !in data.rest && id in t ==>
              (column in after[id].rest <==> column in t[id].rest)
              && (column in t[id].rest ==> after[id].rest[column] == t[id].rest[column])
    ensures column !in data.rest && id !in t ==> column !in after[id].rest
    // which row it is
    ensures (exists p :: HasPlace(t, p, data.system, data.name)) ==> id in t && HasPlace(t, id, data.system, data.name)
    ensures id in t && !HasPlace(t, id, data.system, data.name) ==>
              data.marketId.Value? && HasMarket(t, id, data.marketId.value)
    ensures id !in t ==> forall other :: !HasPlace(t, other, data.system, data.name)
                                         && (data.marketId.Value? ==> !HasMarket(t, other, data.marketId.value))
  {
  }

  lemma AtMostOneHolder(t: Stations, data: Data, id: StationId)
    requires Unique(t)
    ensures |Holders(t, data, id)| <= 1
  {
    if h :| h in Holders(t, data, id) {
      OldHolders(t, data, id, Some(h));
      assert Holders(t, data, id) == {h};
    } else {
      assert Holders(t, data, id) == {};
    }
  }

  function Untimed(s: Station): Station { s.(updatedAt := 0) }

  /** Data as the station messages give them: services cleaned, and those of the catalogue beside them. */
  predicate Prepared(data: Data, catalogue: set<string>) {
    match data.services
    case Some(services) => AllClean(services) && data.servicesV2 == Some(Supported(services, catalogue))
    case None => data.servicesV2.None?
  }

  lemma WrittenTwice(t: Stations, data: Data, id: StationId, now: int, catalogue: set<string>, after: Stations,
                     later: int)
    requires Prepared(data, catalogue) && id in after && after[id] == Written(t, data, id, now, catalogue)
    ensures Untimed(Written(after, data, id, later, catalogue)) == Untimed(after[id])
  {
    if data.services.Some? {
      NormalizeTwice(data.services.value);
    }
    assert after[id].rest + data.rest == after[id].rest;
  }

  /** The same message again writes the same row. */
  lemma MergeTwice(t: Stations, data: Data, unused: StationId, now: int, catalogue: set<string>, after: Stations,
                   id: StationId, unusedLater: StationId, later: int, again: Stations, idAgain: StationId)
    requires Unique(t) && unused !in t && Merge(t, data, unused, now, catalogue, after, id) && Prepared(data, catalogue)
    requires unusedLater !in after && Merge(after, data, unusedLater, later, catalogue, again, idAgain)
    ensures idAgain == id && again == after[id := again[id]] && Untimed(again[id]) == Untimed(after[id])
  {
    MergedIdentity(t, data, unused, now, catalogue, after, id);
    assert HasPlace(after, id, data.system, data.name);
    WrittenTwice(t, data, id, now, catalogue, after, later);
    NoHolders(after, data, id);
  }

  lemma NoHolders(t: Stations, data: Data, id: StationId)
    requires data.marketId.Value? ==> forall other :: HasMarket(t, other, data.marketId.value) <==> other == id
    ensures t - Holders(t, data, id) == t
  {
    forall h | h in Holders(t, data, id) ensures false {
      assert HasMarket(t, h, data.marketId.value);
    }
    assert Holders(t, data, id) == {};
  }

  /** Whatever was stored before, services that come in are stored cleaned, together with those of the catalogue;
      without any the stored ones stay, and the catalogue's are filled in if they were missing. */
  lemma ServicesStayInStep(t: Stations, data: Data, unused: StationId, now: int, catalogue: set<string>,
                           after: Stations, id: StationId)
    requires Unique(t) && unused !in t
    requires Merge(t, WithPayload(data, PrepareWrite(data.services, [], [], catalogue)), unused, now, catalogue, after,
                   id)
    ensures id in after
    ensures data.services.Some? ==>
              && after[id].services == NormalizeServices(data.services.value)
              && after[id].servicesV2 == Supported(NormalizeServices(data.services.value), catalogue)
    ensures data.services.None? && id in t ==>
              && after[id].services == t[id].services
              && after[id].servicesV2 ==
                   if t[id].servicesV2 == [] then ServicesV2(t[id].services, catalogue) else t[id].servicesV2
  {
    if data.services.Some? {
      NormalizedIsClean(data.services.value);
      NormalizeTwice(NormalizeServices(data.services.value));
    }
  }
}
