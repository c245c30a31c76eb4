/** The query that lists factions by the distance of their nearest system, looking only at the nearest systems. */
module FactionsByDistance {
  import opened Collections
  import opened Galaxy

  const RANKED_SYSTEM_LIMIT := 5_000

  datatype Position = Position(x: real, y: real, z: real)

  datatype Nearest = Nearest(system: SystemId, distance: real)

  // the rows of systemFactions, and where the systems are
  datatype Tables = Tables(systems: map<SystemId, Position>, presence: set<RowKey>)

  // distance of each system to the reference
  type Distances = map<SystemId, real>

  /** The square of the distance, which orders systems as the distance does. */
  function Squared(a: Position, b: Position): real {
    (a.x - b.x) * (a.x - b.x) + (a.y - b.y) * (a.y - b.y) + (a.z - b.z) * (a.z - b.z)
  }

  /** No rows if the reference is unknown. */
  function DistancesTo(systems: map<SystemId, Position>, reference: SystemId): Distances {
    if reference !in systems then map[] else map s | s in systems :: Squared(systems[s], systems[reference])
  }

  // -------------------------------------------------------------- order by distance, id

  predicate Before(d: Distances, a: SystemId, b: SystemId)
    requires a in d && b in d
  {
    d[a] < d[b] || (d[a] == d[b] && a < b)
  }

  predicate IsFirst(d: Distances, s: SystemId) {
    s in d && forall other | other in d && other != s :: Before(d, s, other)
  }

  lemma {:induction false} SomeFirst(d: Distances)
    requires d != map[]
    ensures exists s :: IsFirst(d, s)
    decreases |d|
  {
    var a :| a in d;
    var rest := d - {a};
    if rest == map[] {
      assert forall other | other in d && other != a :: other in rest;
      assert IsFirst(d, a);
    } else {
      assert rest.Keys == d.Keys - {a} && |rest| == |rest.Keys| && |d| == |d.Keys|;
      SomeFirst(rest);
      var b :| IsFirst(rest, b);
      assert forall other | other in d && other != a :: other in rest;
      assert IsFirst(d, if Before(d, a, b) then a else b);
    }
  }

  ghost function Ranked(d: Distances): (ranked: seq<SystemId>)
    ensures |ranked| == |d|
    decreases |d|
  {
    if d == map[] then []
    else
      SomeFirst(d);
      var s :| IsFirst(d, s);
      assert (d - {s}).Keys == d.Keys - {s} && |d - {s}| == |(d - {s}).Keys| && |d| == |d.Keys|;
      [s] + Ranked(d - {s})
  }

  ghost predicate Orders(d: Distances, ranked: seq<SystemId>) {
    && (forall s :: s in ranked <==> s in d)
    && forall i, j | 0 <= i < j < |ranked| :: ranked[i] in d && ranked[j] in d && Before(d, ranked[i], ranked[j])
  }

  lemma OrdersOneMore(d: Distances, s: SystemId, tail: seq<SystemId>)
    requires IsFirst(d, s) && Orders(d - {s}, tail)
    ensures Orders(d, [s] + tail)
  {
    var ranked := [s] + tail;
    forall other ensures other in ranked <==> other in d {
      assert other in tail <==> other in d - {s};
    }
    forall i, j | 0 <= i < j < |ranked| ensures ranked[i] in d && ranked[j] in d && Before(d, ranked[i], ranked[j]) {
      assert ranked[j] == tail[j - 1] && tail[j - 1] in d - {s};
      if i > 0 {
        assert ranked[i] == tail[i - 1] && Before(d - {s}, tail[i - 1], tail[j - 1]);
      }
    }
  }

  lemma {:induction false} RankedOrders(d: Distances)
    ensures Orders(d, Ranked(d))
    decreases |d|
  {
    if d != map[] {
      var s := Ranked(d)[0];
      assert IsFirst(d, s) && Ranked(d) == [s] + Ranked(d - {s});
      assert (d - {s}).Keys == d.Keys - {s} && |d - {s}| == |(d - {s}).Keys| && |d| == |d.Keys|;
      RankedOrders(d - {s});
      OrdersOneMore(d, s, Ranked(d - {s}));
    }
  }

  // -------------------------------------------------------------- the query

  /** DISTINCT ON the faction in that order: its first system. */
  function FirstWith(ranked: seq<SystemId>, presence: set<RowKey>, f: FactionId): (r: Option<nat>)
    ensures r.Some? ==> r.value < |ranked| && RowKey(ranked[r.value], f) in presence
    ensures forall i | 0 <= i < (if r.Some? then r.value else |ranked|) :: RowKey(ranked[i], f) !in presence
  {
    if ranked == [] then None
    else if RowKey(ranked[0], f) in presence then Some(0)
    else
      match FirstWith(ranked[1..], presence, f)
      case None => None
      case Some(i) => Some(i + 1)
  }

  function Factions(presence: set<RowKey>): set<FactionId> { set k | k in presence :: k.faction }

  function Select(d: Distances, ranked: seq<SystemId>, presence: set<RowKey>): map<FactionId, Nearest>
    requires forall i | 0 <= i < |ranked| :: ranked[i] in d
  {
    map f | f in Factions(presence) && FirstWith(ranked, presence, f).Some? ::
      Nearest(ranked[FirstWith(ranked, presence, f).value], d[ranked[FirstWith(ranked, presence, f).value]])
  }

  function Take(ranked: seq<SystemId>, limit: nat): seq<SystemId> {
    if limit <= |ranked| then ranked[..limit] else ranked
  }

  /** The query with a limit on the ranked systems. */
  ghost function Query(d: Distances, presence: set<RowKey>, limit: nat): map<FactionId, Nearest> {
    RankedOrders(d);
    TakeWithin(Ranked(d), limit);
    Select(d, Take(Ranked(d), limit), presence)
  }

  lemma TakeWithin(ranked: seq<SystemId>, limit: nat)
    ensures forall i | 0 <= i < |Take(ranked, limit)| :: Take(ranked, limit)[i] == ranked[i] && ranked[i] in ranked
    ensures limit >= |ranked| ==> Take(ranked, limit) == ranked
  {
  }

  ghost function FactionsByDistance(t: Tables, reference: SystemId): map<FactionId, Nearest> {
    Query(DistancesTo(t.systems, reference), t.presence, RANKED_SYSTEM_LIMIT)
  }

  // -------------------------------------------------------------- what it is for

  predicate PresentAt(d: Distances, presence: set<RowKey>, s: SystemId, f: FactionId) {
    s in d && RowKey(s, f) in presence
  }

  /** The faction's nearest system, of equals the one with the smallest id. */
  predicate IsNearest(d: Distances, presence: set<RowKey>, f: FactionId, n: Nearest) {
    && PresentAt(d, presence, n.system, f) && d[n.system] == n.distance
    && forall s | s in d && PresentAt(d, presence, s, f) && s != n.system :: Before(d, n.system, s)
  }

  lemma FirstIsBeforeOthers(d: Distances, ranked: seq<SystemId>, presence: set<RowKey>, f: FactionId, s: SystemId)
    requires Orders(d, ranked) && PresentAt(d, presence, s, f)
    ensures FirstWith(ranked, presence, f).Some?
    ensures var first := ranked[FirstWith(ranked, presence, f).value]; first in d && (s == first || Before(d, first, s))
  {
    var i :| 0 <= i < |ranked| && ranked[i] == s;
  }

  lemma FirstWithTake(ranked: seq<SystemId>, presence: set<RowKey>, f: FactionId, limit: nat)
    ensures FirstWith(Take(ranked, limit), presence, f) ==
              if FirstWith(ranked, presence, f).Some? && FirstWith(ranked, presence, f).value < limit
                then FirstWith(ranked, presence, f) else None
  {
    var front := Take(ranked, limit);
    TakeWithin(ranked, limit);
    var a, b := FirstWith(front, presence, f), FirstWith(ranked, presence, f);
    assert a.Some? ==> RowKey(ranked[a.value], f) in presence && b.Some? && b.value <= a.value;
    assert b.Some? && b.value < limit ==> front[b.value] == ranked[b.value] && a.Some? && a.value <= b.value;
  }

  /** Where the query finds a faction, in terms of the full ranking. */
  lemma QueryAt(d: Distances, presence: set<RowKey>, limit: nat, f: FactionId)
    ensures var first := FirstWith(Ranked(d), presence, f);
            && (f in Query(d, presence, limit) <==> first.Some? && first.value < limit)
            && (f in Query(d, presence, limit) ==>
                  Ranked(d)[first.value] in d
                    && Query(d, presence, limit)[f] == Nearest(Ranked(d)[first.value], d[Ranked(d)[first.value]]))
  {
    RankedOrders(d);
    FirstWithTake(Ranked(d), presence, f, limit);
    TakeWithin(Ranked(d), limit);
    if FirstWith(Ranked(d), presence, f).Some? {
      assert RowKey(Ranked(d)[FirstWith(Ranked(d), presence, f).value], f) in presence;
      assert f in Factions(presence);
    }
  }

  /** Over all systems the query lists exactly the factions present in some of them, each with its nearest. */
  lemma UnlimitedIsExact(d: Distances, presence: set<RowKey>, f: FactionId)
    ensures f in Query(d, presence, |d|) <==> exists s :: PresentAt(d, presence, s, f)
    ensures f in Query(d, presence, |d|) ==> IsNearest(d, presence, f, Query(d, presence, |d|)[f])
  {
    QueryAt(d, presence, |d|, f);
    RankedOrders(d);
    forall s | PresentAt(d, presence, s, f)
      ensures f in Query(d, presence, |d|)
      ensures s == Query(d, presence, |d|)[f].system || Before(d, Query(d, presence, |d|)[f].system, s)
    {
      FirstIsBeforeOthers(d, Ranked(d), presence, f, s);
    }
    if f in Query(d, presence, |d|) {
      assert PresentAt(d, presence, Query(d, presence, |d|)[f].system, f);
    }
  }

  lemma IndexUnique(d: Distances, ranked: seq<SystemId>, i: nat, j: nat)
    requires Orders(d, ranked) && i < |ranked| && j < |ranked|
    ensures ranked[i] == ranked[j] ==> i == j
  {
    assert i < j ==> Before(d, ranked[i], ranked[j]);
    assert j < i ==> Before(d, ranked[j], ranked[i]);
  }

  /** With any limit, every faction listed has the nearest system and distance that the query over all systems gives
      it, and a faction is left out exactly if its nearest system is not among the ranked ones. */
  lemma LimitedAgreesWithExact(d: Distances, presence: set<RowKey>, limit: nat, f: FactionId)
    ensures var exact, limited := Query(d, presence, |d|), Query(d, presence, limit);
            && (f in limited ==> f in exact && limited[f] == exact[f])
            && (f in limited <==> f in exact && exact[f].system in Take(Ranked(d), limit))
  {
    QueryAt(d, presence, |d|, f);
    QueryAt(d, presence, limit, f);
    RankedOrders(d);
    TakeWithin(Ranked(d), limit);
    if f in Query(d, presence, |d|) {
      var i, s := FirstWith(Ranked(d), presence, f).value, Query(d, presence, |d|)[f].system;
      if j :| 0 <= j < |Take(Ranked(d), limit)| && Take(Ranked(d), limit)[j] == s {
        IndexUnique(d, Ranked(d), i, j);
      }
      if i < limit {
        assert Take(Ranked(d), limit)[i] == s;
      }
    }
  }

  /** A faction the limit leaves out is at least as far as every faction listed. */
  lemma LeftOutIsFarther(d: Distances, presence: set<RowKey>, limit: nat, listed: FactionId, omitted: FactionId)
    requires listed in Query(d, presence, limit) && omitted in Query(d, presence, |d|)
             && omitted !in Query(d, presence, limit)
    ensures Query(d, presence, limit)[listed].distance <= Query(d, presence, |d|)[omitted].distance
  {
    QueryAt(d, presence, limit, listed);
    QueryAt(d, presence, limit, omitted);
    QueryAt(d, presence, |d|, omitted);
    RankedOrders(d);
    var i, j := FirstWith(Ranked(d), presence, listed).value, FirstWith(Ranked(d), presence, omitted).value;
    assert Before(d, Ranked(d)[i], Ranked(d)[j]);
  }

  /** The systems nearer than `s`, or as near and with a smaller id. */
  function Nearer(d: Distances, s: SystemId): set<SystemId>
    requires s in d
  {
    set other | other in d && Before(d, other, s)
  }

  lemma PlacedBefore(d: Distances, ranked: seq<SystemId>, i: nat, j: nat)
    requires Orders(d, ranked) && i < |ranked| && j < |ranked|
    ensures ranked[i] in d && ranked[j] in d && (Before(d, ranked[j], ranked[i]) <==> j < i)
  {
    assert ranked[i] in ranked && ranked[j] in ranked;
  }

  function Front(ranked: seq<SystemId>, i: nat): set<SystemId>
    requires i <= |ranked|
  {
    set j | 0 <= j < i :: ranked[j]
  }

  lemma FrontGrows(ranked: seq<SystemId>, i: nat)
    requires i < |ranked|
    ensures Front(ranked, i + 1) == Front(ranked, i) + {ranked[i]}
  {
    forall j | 0 <= j < i + 1 ensures ranked[j] in Front(ranked, i) + {ranked[i]} {
    }
  }

  lemma {:induction false} FrontSize(d: Distances, ranked: seq<SystemId>, i: nat)
    requires Orders(d, ranked) && i <= |ranked|
    ensures |Front(ranked, i)| == i
  {
    if i > 0 {
      FrontSize(d, ranked, i - 1);
      forall j | 0 <= j < i - 1 ensures ranked[j] != ranked[i - 1] {
        PlacedBefore(d, ranked, i - 1, j);
      }
      FrontGrows(ranked, i - 1);
      assert ranked[i - 1] !in Front(ranked, i - 1);
    } else {
      assert Front(ranked, 0) == {};
    }
  }

  /** A system's place in the ranking is the number of systems before it. */
  lemma PlaceIsCount(d: Distances, ranked: seq<SystemId>, i: nat)
    requires Orders(d, ranked) && i < |ranked|
    ensures ranked[i] in d && |Nearer(d, ranked[i])| == i
  {
    assert ranked[i] in ranked;
    FrontSize(d, ranked, i);
    forall j | 0 <= j < |ranked| ensures ranked[j] in d && (Before(d, ranked[j], ranked[i]) <==> j < i) {
      PlacedBefore(d, ranked, i, j);
    }
    forall other ensures other in Nearer(d, ranked[i]) <==> other in Front(ranked, i) {
      if other in d {
        assert other in ranked;
      }
    }
    assert Front(ranked, i) == Nearer(d, ranked[i]);
  }

  /** Which factions a limit lists: those whose nearest system has fewer than `limit` systems before it. */
  lemma ListedIfNearEnough(d: Distances, presence: set<RowKey>, limit: nat, f: FactionId)
    ensures f in Query(d, presence, limit) <==>
            exists n :: IsNearest(d, presence, f, n) && |Nearer(d, n.system)| < limit
  {
    QueryAt(d, presence, limit, f);
    QueryAt(d, presence, |d|, f);
    UnlimitedIsExact(d, presence, f);
    RankedOrders(d);
    if n :| IsNearest(d, presence, f, n) {
      assert PresentAt(d, presence, n.system, f);
    }
    if f in Query(d, presence, |d|) {
      var exact := Query(d, presence, |d|)[f];
      PlaceIsCount(d, Ranked(d), FirstWith(Ranked(d), presence, f).value);
      forall n | IsNearest(d, presence, f, n) ensures n == exact {
        NearestIsUnique(d, presence, f, n, exact);
      }
    }
  }

  lemma NearestIsUnique(d: Distances, presence: set<RowKey>, f: FactionId, m: Nearest, n: Nearest)
    requires IsNearest(d, presence, f, m) && IsNearest(d, presence, f, n)
    ensures m == n
  {
  }

  /** Distances as the coordinates give them, squared; none if the reference is unknown. */
  predicate AreDistances(d: Distances, systems: map<SystemId, Position>, reference: SystemId) {
    && d.Keys == (if reference in systems then systems.Keys else {})
    && forall s | s in d && s in systems ::
         var dx, dy, dz := systems[s].x - systems[reference].x, systems[s].y - systems[reference].y,
                           systems[s].z - systems[reference].z;
         d[s] == dx * dx + dy * dy + dz * dz
  }

  /** With any limit: what is listed is exact, and what is left out is no nearer. */
  lemma ListedAreNearest(d: Distances, presence: set<RowKey>, limit: nat, f: FactionId, other: FactionId)
    ensures var rows := Query(d, presence, limit);
            && (f in rows ==> IsNearest(d, presence, f, rows[f]))
            && (f in rows && other !in rows ==>
                  forall s | s in d && PresentAt(d, presence, s, other) :: rows[f].distance <= d[s])
            && (|d| <= limit && (exists s :: PresentAt(d, presence, s, f)) ==> f in rows)
  {
    UnlimitedIsExact(d, presence, f);
    LimitedAgreesWithExact(d, presence, limit, f);
    QueryAt(d, presence, limit, f);
    QueryAt(d, presence, |d|, f);
    UnlimitedIsExact(d, presence, other);
    if f in Query(d, presence, limit) && other !in Query(d, presence, limit) && other in Query(d, presence, |d|) {
      LeftOutIsFarther(d, presence, limit, f, other);
    }
  }

  /** All of it about the query as it is run: what it lists is exact, it lists exactly the factions whose nearest system
      is among the 5000 nearest, what it leaves out is no nearer, and an unknown reference gives no rows. */
  lemma ListedFactionsAreExact(t: Tables, reference: SystemId, f: FactionId, other: FactionId)
    ensures var d, rows := DistancesTo(t.systems, reference), FactionsByDistance(t, reference);
            && AreDistances(d, t.systems, reference)
            && (f in rows ==> IsNearest(d, t.presence, f, rows[f]))
            && (f in rows <==> exists n :: IsNearest(d, t.presence, f, n) && |Nearer(d, n.system)| < 5000)
            && (f in rows && other !in rows ==>
                  forall s | s in d && PresentAt(d, t.presence, s, other) :: rows[f].distance <= d[s])
            && (reference !in t.systems ==> f !in rows)
            && (|d| <= 5000 && (exists s :: PresentAt(d, t.presence, s, f)) ==> f in rows)
  {
    var d := DistancesTo(t.systems, reference);
    ListedAreNearest(d, t.presence, RANKED_SYSTEM_LIMIT, f, other);
    ListedIfNearEnough(d, t.presence, RANKED_SYSTEM_LIMIT, f);
  }
}
