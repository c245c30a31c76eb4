/** The limit on open event streams: leases in a Redis sorted set that expire on their own, and the process's own
    count of its streams. */
module LeaseLimiter {
  import opened Collections

  const LEASE_TTL_MS := 90_000

  type Lease = nat
  type ApiKeyId = string

  // when each lease ends
  type Leases = map<Lease, int>

  // one sorted set and the time at which Redis drops it
  datatype Key = Key(leases: Leases, expiresAt: int)

  const NO_KEY := Key(map[], 0)

  // the limiter's scripts on one key, each at a time of the clock it shares with Redis
  datatype Operation =
    | Acquire(now: int, lease: Lease)
    | Refresh(now: int, lease: Lease)
    | Release(now: int, lease: Lease)
    | Clear(now: int)

  function Present(key: Key, now: int): Leases { if now > key.expiresAt then map[] else key.leases }

  function Unexpired(leases: Leases, now: int): Leases { map l | l in leases && leases[l] > now :: leases[l] }

  datatype Outcome = Outcome(key: Key, ok: bool, active: nat)

  function Script(key: Key, op: Operation, max: int): Outcome {
    var present := Present(key, op.now);
    var kept := Unexpired(present, op.now);
    match op
    case Acquire(now, lease) =>
      if |kept| >= max then Outcome(Key(kept, key.expiresAt), false, |kept|)
      else Outcome(Key(kept[lease := now + LEASE_TTL_MS], now + LEASE_TTL_MS), true, |kept| + 1)
    case Refresh(now, lease) =>
      if lease !in kept then Outcome(Key(kept, key.expiresAt), false, |kept|)
      else Outcome(Key(kept[lease := now + LEASE_TTL_MS], now + LEASE_TTL_MS), true, |kept|)
    case Release(now, lease) =>
      var left := present - {lease};
      Outcome(if left == map[] then NO_KEY else Key(left, key.expiresAt), true, |left|)
    case Clear(_) => Outcome(NO_KEY, true, 0)
  }

  class LeaseKey {
    var leases: Leases
    var expiresAt: int

    constructor ()
      ensures View() == NO_KEY
    {
      leases, expiresAt := map[], 0;
    }

    function View(): Key
      reads this
    {
      Key(leases, expiresAt)
    }

    /** The key as the script finds it, after ZREMRANGEBYSCORE. */
    method Purge(now: int)
      modifies this`leases
      ensures leases == Unexpired(Present(old(View()), now), now)
    {
      leases := Unexpired(Present(View(), now), now);
    }

    method TryOpen(now: int, lease: Lease, max: int) returns (ok: bool, active: nat)
      modifies this
      ensures Outcome(View(), ok, active) == Script(old(View()), Acquire(now, lease), max)
    {
      Purge(now);
      active := |leases|;
      if active >= max {
        return false, active;
      }
      leases, expiresAt := leases[lease := now + LEASE_TTL_MS], now + LEASE_TTL_MS;
      return true, active + 1;
    }

    method RefreshLease(now: int, lease: Lease) returns (ok: bool)
      modifies this
      ensures var outcome := Script(old(View()), Refresh(now, lease), 0); View() == outcome.key && ok == outcome.ok
    {
      Purge(now);
      if lease !in leases {
        return false;
      }
      leases, expiresAt := leases[lease := now + LEASE_TTL_MS], now + LEASE_TTL_MS;
      return true;
    }

    method ReleaseLease(now: int, lease: Lease)
      modifies this
      ensures View() == Script(old(View()), Release(now, lease), 0).key
    {
      leases := Present(View(), now) - {lease};
      if |leases| == 0 {
        ClearLeases();
      }
    }

    method ClearLeases()
      modifies this
      ensures View() == NO_KEY
    {
      leases, expiresAt := map[], 0;
    }
  }

  // -------------------------------------------------------------- against a table that never drops a key

  // what was granted and neither released nor cleared, with the end of each lease
  datatype State = State(key: Key, granted: Leases, now: int)

  function Grant(granted: Leases, op: Operation, ok: bool): Leases {
    match op
    case Acquire(now, lease) => if ok then granted[lease := now + LEASE_TTL_MS] else granted
    case Refresh(now, lease) => if ok then granted[lease := now + LEASE_TTL_MS] else granted
    case Release(_, lease) => granted - {lease}
    case Clear(_) => map[]
  }

  function Next(s: State, op: Operation, max: int): State {
    var outcome := Script(s.key, op, max);
    State(outcome.key, Grant(s.granted, op, outcome.ok), op.now)
  }

  function Run(s: State, ops: seq<Operation>, max: int): State {
    if ops == [] then s else Next(Run(s, ops[..|ops| - 1], max), ops[|ops| - 1], max)
  }

  /** The clock does not go back. */
  predicate Ordered(now: int, ops: seq<Operation>)
    decreases |ops|
  {
    ops != [] ==>
      Ordered(now, ops[..|ops| - 1])
      && (if |ops| == 1 then now else ops[|ops| - 2].now) <= ops[|ops| - 1].now
  }

  function Initial(now: int): State { State(NO_KEY, map[], now) }

  ghost predicate Remembers(s: State) {
    && (forall l | l in s.key.leases ::
        l in s.granted && s.granted[l] == s.key.leases[l] && s.key.leases[l] <= s.key.expiresAt)
    && (forall l | l in s.granted && s.granted[l] > s.now :: l in s.key.leases)
    && (s.key.leases != map[] ==> s.key.expiresAt <= s.now + LEASE_TTL_MS)
  }

  predicate AtMost(leases: Leases, max: nat) { |leases| <= max }

  lemma FewerLeases(a: Leases, b: Leases)
    requires a.Keys <= b.Keys
    ensures |a| <= |b|
  {
    SubsetSize(a.Keys, b.Keys);
    assert |a| == |a.Keys| && |b| == |b.Keys|;
  }

  /** The expiry of the key never loses a lease that has not ended: what is unexpired is what was granted. */
  lemma KeptIsGranted(s: State, now: int)
    requires Remembers(s) && s.now <= now
    ensures Unexpired(Present(s.key, now), now) == Unexpired(s.granted, now)
  {
  }

  lemma NextRemembers(s: State, op: Operation, max: nat)
    requires Remembers(s) && s.now <= op.now
    ensures Remembers(Next(s, op, max))
  {
    KeptIsGranted(s, op.now);
    var after := Next(s, op, max);
    forall l | l in after.granted && after.granted[l] > op.now ensures l in after.key.leases {
      assert l in Unexpired(s.granted, op.now) || (!op.Clear? && op.lease == l);
    }
  }

  lemma NextAtMost(key: Key, op: Operation, max: nat)
    requires AtMost(key.leases, max)
    ensures AtMost(Script(key, op, max).key.leases, max)
  {
    var present := Present(key, op.now);
    FewerLeases(Unexpired(present, op.now), present);
    match op
    case Acquire(now, lease) =>
    case Refresh(now, lease) =>
      var kept := Unexpired(present, op.now);
      assert lease in kept ==> kept[lease := now + LEASE_TTL_MS].Keys == kept.Keys;
      FewerLeases(Script(key, op, max).key.leases, kept);
    case Release(_, lease) =>
      FewerLeases(present - {lease}, present);
    case Clear(_) =>
  }

  lemma {:induction false} RunKeeps(s: State, ops: seq<Operation>, max: nat)
    requires Remembers(s) && AtMost(s.key.leases, max) && Ordered(s.now, ops)
    ensures var last := Run(s, ops, max);
            && Remembers(last) && AtMost(last.key.leases, max)
            && last.now == if ops == [] then s.now else ops[|ops| - 1].now
  {
    if ops != [] {
      var front, op := ops[..|ops| - 1], ops[|ops| - 1];
      RunKeeps(s, front, max);
      NextRemembers(Run(s, front, max), op, max);
      NextAtMost(Run(s, front, max).key, op, max);
    }
  }

  /** In every run the key never holds more than the maximum, a stream is admitted exactly while fewer leases are
      unexpired, and a refresh succeeds exactly for a lease that is. */
  lemma LimitHolds(now: int, ops: seq<Operation>, max: nat, lease: Lease, later: int)
    requires Ordered(now, ops) && Run(Initial(now), ops, max).now <= later
    ensures var s := Run(Initial(now), ops, max);
            && |s.key.leases| <= max
            && Script(s.key, Acquire(later, lease), max).ok == (|Unexpired(s.granted, later)| < max)
            && Script(s.key, Acquire(later, lease), max).active
               == |Unexpired(s.granted, later)| + (if |Unexpired(s.granted, later)| < max then 1 else 0)
            && Script(s.key, Refresh(later, lease), max).ok == (lease in s.granted && later < s.granted[lease])
  {
    RunKeeps(Initial(now), ops, max);
    KeptIsGranted(Run(Initial(now), ops, max), later);
  }

  /** A refresh neither adds a lease nor brings an ended one back. */
  lemma RefreshNeverRevives(key: Key, now: int, lease: Lease, max: int)
    ensures var after := Script(key, Refresh(now, lease), max).key.leases;
            && after.Keys == Unexpired(Present(key, now), now).Keys
            && (forall l | l in after && l != lease :: after[l] == key.leases[l])
            && (lease !in Present(key, now) || Present(key, now)[lease] <= now ==> lease !in after)
  {
    var kept := Unexpired(Present(key, now), now);
    assert lease in kept ==> kept[lease := now + LEASE_TTL_MS].Keys == kept.Keys;
  }

  // -------------------------------------------------------------- a lease that is refreshed in time

  predicate RefreshesAt(op: Operation, lease: Lease) { op.Refresh? && op.lease == lease }

  /** When the lease was last obtained or refreshed. */
  function LastRefresh(ops: seq<Operation>, lease: Lease, since: int): int {
    if ops == [] then since
    else if RefreshesAt(ops[|ops| - 1], lease) then ops[|ops| - 1].now
    else LastRefresh(ops[..|ops| - 1], lease, since)
  }

  predicate InTime(ops: seq<Operation>, i: int, lease: Lease, since: int)
    requires 0 <= i < |ops|
  {
    RefreshesAt(ops[i], lease) ==> ops[i].now < LastRefresh(ops[..i], lease, since) + 90_000
  }

  predicate LeavesAlone(op: Operation, lease: Lease) { !op.Clear? && (op.lease == lease ==> op.Refresh?) }

  predicate KeptFresh(ops: seq<Operation>, lease: Lease, since: int) {
    forall i | 0 <= i < |ops| :: LeavesAlone(ops[i], lease) && InTime(ops, i, lease, since)
  }

  lemma KeptFreshPrefix(ops: seq<Operation>, lease: Lease, since: int)
    requires KeptFresh(ops, lease, since) && ops != []
    ensures KeptFresh(ops[..|ops| - 1], lease, since)
  {
    var front := ops[..|ops| - 1];
    forall i | 0 <= i < |front| ensures LeavesAlone(front[i], lease) && InTime(front, i, lease, since) {
      assert front[i] == ops[i] && front[..i] == ops[..i];
      assert InTime(ops, i, lease, since);
    }
  }

  /** A lease refreshed at gaps of less than its lifetime is there, whatever else happens, until it is released or
      cleared: it ends a lifetime after its last refresh. */
  lemma {:induction false} RefreshedLeaseSurvives(s: State, ops: seq<Operation>, max: nat, lease: Lease, since: int)
    requires Remembers(s) && AtMost(s.key.leases, max) && Ordered(s.now, ops)
    requires lease in s.granted && s.granted[lease] == since + 90_000
    requires KeptFresh(ops, lease, since)
    ensures var last := Run(s, ops, max); var end := LastRefresh(ops, lease, since) + 90_000;
            && lease in last.granted && last.granted[lease] == end
            && (forall later | last.now <= later :: Script(last.key, Refresh(later, lease), max).ok <==> later < end)
  {
    if ops != [] {
      var front, op := ops[..|ops| - 1], ops[|ops| - 1];
      KeptFreshPrefix(ops, lease, since);
      RefreshedLeaseSurvives(s, front, max, lease, since);
      RunKeeps(s, front, max);
      assert LeavesAlone(op, lease) && InTime(ops, |ops| - 1, lease, since);
      OneMoreInTime(Run(s, front, max), op, max, lease, LastRefresh(front, lease, since));
    }
    RunKeeps(s, ops, max);
    AliveUntilItsEnd(Run(s, ops, max), max, lease, LastRefresh(ops, lease, since) + LEASE_TTL_MS);
  }

  /** A stream that was admitted holds its lease from then on for 90 seconds, and for 90 seconds after every refresh in
      time. */
  lemma AdmittedStreamIsCounted(s: State, now: int, lease: Lease, ops: seq<Operation>, max: nat)
    requires Remembers(s) && AtMost(s.key.leases, max) && s.now <= now && Ordered(now, ops)
    requires Script(s.key, Acquire(now, lease), max).ok && KeptFresh(ops, lease, now)
    ensures var last := Run(Next(s, Acquire(now, lease), max), ops, max);
            forall later | last.now <= later ::
              Script(last.key, Refresh(later, lease), max).ok <==> later < LastRefresh(ops, lease, now) + 90_000
  {
    NextRemembers(s, Acquire(now, lease), max);
    NextAtMost(s.key, Acquire(now, lease), max);
    RefreshedLeaseSurvives(Next(s, Acquire(now, lease), max), ops, max, lease, now);
  }

  lemma OneMoreInTime(s: State, op: Operation, max: nat, lease: Lease, since: int)
    requires Remembers(s) && s.now <= op.now && LeavesAlone(op, lease)
    requires lease in s.granted && s.granted[lease] == since + LEASE_TTL_MS
    requires RefreshesAt(op, lease) ==> op.now < since + LEASE_TTL_MS
    ensures var granted := Next(s, op, max).granted;
            lease in granted && granted[lease] == (if RefreshesAt(op, lease) then op.now else since) + LEASE_TTL_MS
  {
    KeptIsGranted(s, op.now);
  }

  lemma AliveUntilItsEnd(s: State, max: nat, lease: Lease, end: int)
    requires Remembers(s) && lease in s.granted && s.granted[lease] == end
    ensures forall later | s.now <= later :: Script(s.key, Refresh(later, lease), max).ok <==> later < end
  {
    forall later | s.now <= later ensures Script(s.key, Refresh(later, lease), max).ok <==> later < end {
      KeptIsGranted(s, later);
    }
  }

  // -------------------------------------------------------------- the process's own count

  ghost function Sum(counts: map<ApiKeyId, nat>): nat {
    if counts == map[] then 0
    else
      var k :| k in counts;
      counts[k] + Sum(counts - {k})
  }

  lemma {:induction false} SumWithout(counts: map<ApiKeyId, nat>, k: ApiKeyId)
    requires k in counts
    ensures Sum(counts) == counts[k] + Sum(counts - {k})
  {
    var first :| first in counts && Sum(counts) == counts[first] + Sum(counts - {first});
    if first != k {
      SumWithout(counts - {first}, k);
      SumWithout(counts - {k}, first);
      assert counts - {first} - {k} == counts - {k} - {first};
    }
  }

  lemma SumUpdate(counts: map<ApiKeyId, nat>, k: ApiKeyId, n: nat)
    ensures Sum(counts[k := n]) + CountOf(counts, k) == Sum(counts) + n
    ensures Sum(counts - {k}) + CountOf(counts, k) == Sum(counts)
  {
    SumWithout(counts[k := n], k);
    assert counts[k := n] - {k} == counts - {k};
    if k in counts {
      SumWithout(counts, k);
    } else {
      assert counts - {k} == counts;
    }
  }

  function CountOf(counts: map<ApiKeyId, nat>, k: ApiKeyId): nat { if k in counts then counts[k] else 0 }

  class ActiveConnections {
    var activeByApiKey: map<ApiKeyId, nat>
    var activeTotal: int

    constructor ()
      ensures Valid() && activeTotal == 0 && forall k :: CountOf(activeByApiKey, k) == 0
    {
      activeByApiKey, activeTotal := map[], 0;
    }

    /** No count is zero, and the total is their sum. */
    ghost predicate Valid()
      reads this
    {
      activeTotal == Sum(activeByApiKey) && forall k | k in activeByApiKey :: activeByApiKey[k] > 0
    }

    method OnOpen(key: ApiKeyId)
      requires Valid()
      modifies this
      ensures Valid() && activeTotal == old(activeTotal) + 1
      ensures forall k :: CountOf(activeByApiKey, k) == CountOf(old(activeByApiKey), k) + if k == key then 1 else 0
    {
      var active := CountOf(activeByApiKey, key);
      SumUpdate(activeByApiKey, key, active + 1);
      activeByApiKey := activeByApiKey[key := active + 1];
      activeTotal := activeTotal + 1;
    }

    method OnClose(key: ApiKeyId)
      requires Valid()
      modifies this
      ensures Valid() && activeTotal == old(activeTotal) - if CountOf(old(activeByApiKey), key) > 0 then 1 else 0
      ensures forall k :: CountOf(activeByApiKey, k) ==
                          CountOf(old(activeByApiKey), k) -
                          if k == key && CountOf(old(activeByApiKey), k) > 0 then 1 else 0
    {
      var active := CountOf(activeByApiKey, key);
      if active <= 0 {
        return;
      }
      SumUpdate(activeByApiKey, key, active - 1);
      if active - 1 == 0 {
        activeByApiKey := activeByApiKey - {key};
      } else {
        activeByApiKey := activeByApiKey[key := active - 1];
      }
      activeTotal := if activeTotal - 1 > 0 then activeTotal - 1 else 0;
    }
  }
}
