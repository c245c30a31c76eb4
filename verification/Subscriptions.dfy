/** The demand and subscription protocol between the SSE broker, the subscription manager and Redis.

    The manager is a value (`Manager`) whose functions run one stretch of code up to its next await.
    `System` puts it beside the Redis connection and the broker's connections, and `Next` interleaves
    registrations, cleanups, command outcomes, closes and readies. */
module Subscriptions {
  type Key = string
  type ConnectionId = nat

  datatype SubscriptionState = Idle | Subscribing | Subscribed | Unsubscribing

  datatype Operation = Increment | Decrement | Reconcile

  datatype Command = SubscribeCommand | UnsubscribeCommand

  datatype Manager = Manager(
    demandCount: map<Key, nat>,
    subscriptionState: map<Key, SubscriptionState>,
    // operations of a key that wait for the earlier ones, in call order
    pending: map<Key, seq<Operation>>,
    // the command at whose await the running operation of a key is suspended
    inFlight: map<Key, Command>,
    redisDisconnected: bool)
  {
    function Demand(k: Key): nat { if k in demandCount then demandCount[k] else 0 }

    // an absent entry and 'idle' are told apart nowhere in the source
    function StateOf(k: Key): SubscriptionState {
      if k in subscriptionState then subscriptionState[k] else Idle
    }

    function Pending(k: Key): seq<Operation> { if k in pending then pending[k] else [] }
  }

  const NEW_MANAGER := Manager(map[], map[], map[], map[], false)

  // ---------------------------------------------------------------- the manager's stretches of code

  function Enqueue(m: Manager, keys: set<Key>, op: Operation): Manager {
    m.(pending := map k | k in m.pending.Keys + keys :: if k in keys then m.Pending(k) + [op] else m.Pending(k))
  }

  lemma EnqueueOneMore(m: Manager, done: set<Key>, k: Key, op: Operation)
    requires k !in done
    ensures Enqueue(Enqueue(m, done, op), {k}, op) == Enqueue(m, done + {k}, op)
  {
    var a, b := Enqueue(Enqueue(m, done, op), {k}, op), Enqueue(m, done + {k}, op);
    assert a.pending == b.pending;
  }

  function SubscribeIfNeeded(m: Manager, k: Key): Manager {
    if m.Demand(k) <= 0 then m
    else if m.StateOf(k) == Subscribed || m.StateOf(k) == Subscribing then m
    else m.(subscriptionState := m.subscriptionState[k := Subscribing], inFlight := m.inFlight[k := SubscribeCommand])
  }

  function UnsubscribeIfNeeded(m: Manager, k: Key): Manager {
    if m.Demand(k) > 0 then m
    else if m.StateOf(k) == Idle || m.StateOf(k) == Unsubscribing then m
    else m.(subscriptionState := m.subscriptionState[k := Unsubscribing],
            inFlight := m.inFlight[k := UnsubscribeCommand])
  }

  function RunOperation(m: Manager, k: Key, op: Operation): Manager {
    match op
    case Increment => SubscribeIfNeeded(m.(demandCount := m.demandCount[k := m.Demand(k) + 1]), k)
    case Decrement =>
      if m.Demand(k) <= 0 then m
      else if m.Demand(k) - 1 == 0 then UnsubscribeIfNeeded(m.(demandCount := m.demandCount - {k}), k)
      else m.(demandCount := m.demandCount[k := m.Demand(k) - 1])
    case Reconcile => SubscribeIfNeeded(m, k)
  }

  function StartNext(m: Manager, k: Key): Manager
    requires m.Pending(k) != []
  {
    RunOperation(m.(pending := m.pending[k := m.Pending(k)[1..]]), k, m.Pending(k)[0])
  }

  function Acknowledged(m: Manager, k: Key): Manager
    requires k in m.inFlight
  {
    var settled := m.(inFlight := m.inFlight - {k});
    match m.inFlight[k]
    case SubscribeCommand =>
      var subscribed := settled.(subscriptionState := m.subscriptionState[k := Subscribed]);
      if m.Demand(k) > 0 then subscribed else UnsubscribeIfNeeded(subscribed, k)
    case UnsubscribeCommand =>
      settled.(subscriptionState := m.subscriptionState[k := if m.Demand(k) <= 0 then Idle else Subscribed])
  }

  function Rejected(m: Manager, k: Key): Manager
    requires k in m.inFlight
  {
    var settled := m.(inFlight := m.inFlight - {k});
    match m.inFlight[k]
    case SubscribeCommand => settled.(subscriptionState := m.subscriptionState[k := Idle])
    case UnsubscribeCommand =>
      settled.(subscriptionState := m.subscriptionState[k := if m.Demand(k) > 0 then Subscribed else Idle])
  }

  function AfterClose(state: SubscriptionState): SubscriptionState {
    if state == Subscribed || state == Subscribing then Idle else state
  }

  function OnClose(m: Manager): Manager {
    m.(redisDisconnected := true,
       subscriptionState := map k | k in m.subscriptionState :: AfterClose(m.subscriptionState[k]))
  }

  function AllIdle(keys: set<Key>): map<Key, SubscriptionState> { map k | k in keys :: Idle }

  function OnReady(m: Manager): Manager {
    Enqueue(m.(redisDisconnected := false, subscriptionState := m.subscriptionState + AllIdle(m.demandCount.Keys)),
            m.demandCount.Keys, Reconcile)
  }

  // ---------------------------------------------------------------- manager, broker and Redis together

  datatype System = System(
    manager: Manager,
    connected: bool,
    // the demand keys whose channels the live Redis connection holds
    held: set<Key>,
    // keys whose latest command settled on this connection was rejected
    rejected: set<Key>,
    // the broker's open connections and the keys each one listens to
    connections: map<ConnectionId, set<Key>>)
  {
    function Listeners(k: Key): set<ConnectionId> {
      set c | c in connections && k in connections[c]
    }

    predicate Drained(k: Key) {
      manager.Pending(k) == [] && k !in manager.inFlight
    }
  }

  datatype Event =
    | Register(connection: ConnectionId, keys: set<Key>)
    | Cleanup(connection: ConnectionId)
    | Start(key: Key)
    | Ack(key: Key)
    | Reject(key: Key, tookEffect: bool)
    | Close
    | Ready

  predicate Enabled(s: System, e: Event) {
    match e
    case Register(c, keys) => c !in s.connections
    case Cleanup(c) => c in s.connections
    case Start(k) => s.manager.Pending(k) != [] && k !in s.manager.inFlight
    case Ack(k) => s.connected && k in s.manager.inFlight
    case Reject(k, tookEffect) => k in s.manager.inFlight
    case Close => true
    case Ready => !s.connected
  }

  function Effect(held: set<Key>, k: Key, command: Command): set<Key> {
    match command
    case SubscribeCommand => held + {k}
    case UnsubscribeCommand => held - {k}
  }

  function Next(s: System, e: Event): System
    requires Enabled(s, e)
  {
    match e
    case Register(c, keys) =>
      s.(connections := s.connections[c := keys], manager := Enqueue(s.manager, keys, Increment))
    case Cleanup(c) =>
      s.(connections := s.connections - {c}, manager := Enqueue(s.manager, s.connections[c], Decrement))
    case Start(k) => s.(manager := StartNext(s.manager, k))
    case Ack(k) =>
      s.(manager := Acknowledged(s.manager, k),
         held := Effect(s.held, k, s.manager.inFlight[k]),
         rejected := s.rejected - {k})
    case Reject(k, tookEffect) =>
      s.(manager := Rejected(s.manager, k),
         held := if s.connected && tookEffect then Effect(s.held, k, s.manager.inFlight[k]) else s.held,
         rejected := if s.connected then s.rejected + {k} else s.rejected)
    case Close => s.(manager := OnClose(s.manager), connected := false, held := {})
    case Ready => s.(manager := OnReady(s.manager), connected := true, held := {}, rejected := {})
  }

  predicate Initial(s: System) {
    s.manager == NEW_MANAGER && s.held == {} && s.rejected == {} && s.connections == map[]
  }

  /** `events` can happen one after the other from `s` and lead to `last`. */
  predicate Run(s: System, events: seq<Event>, last: System)
    decreases events
  {
    if events == [] then s == last
    else Enabled(s, events[0]) && Run(Next(s, events[0]), events[1..], last)
  }

  // ---------------------------------------------------------------- invariants

  function Net(ops: seq<Operation>): int {
    if ops == [] then 0
    else Net(ops[..|ops| - 1]) + match ops[|ops| - 1] case Increment => 1 case Decrement => -1 case Reconcile => 0
  }

  /** What the waiting operations will make of the demand, after the first `n` of them. */
  function Projected(m: Manager, k: Key, n: nat): int
    requires n <= |m.Pending(k)|
  {
    m.Demand(k) + Net(m.Pending(k)[..n])
  }

  ghost predicate CountsAgree(s: System, k: Key) {
    && (k in s.manager.demandCount ==> s.manager.demandCount[k] > 0)
    && (forall n: nat | n <= |s.manager.Pending(k)| :: Projected(s.manager, k, n) >= 0)
    && Projected(s.manager, k, |s.manager.Pending(k)|) == |s.Listeners(k)|
  }

  predicate StateAgrees(s: System, k: Key) {
    var m := s.manager;
    && (k in m.inFlight && m.inFlight[k] == SubscribeCommand ==>
          m.Demand(k) > 0 && (m.StateOf(k) == Subscribing || m.StateOf(k) == Idle))
    && (k in m.inFlight && m.inFlight[k] == UnsubscribeCommand ==> m.Demand(k) == 0 && m.StateOf(k) == Unsubscribing)
    && (k !in m.inFlight ==> m.StateOf(k) == Subscribed || m.StateOf(k) == Idle)
    && (m.StateOf(k) == Subscribed ==> m.Demand(k) > 0 && s.connected && k in s.held)
  }

  predicate ChannelAgrees(s: System, k: Key) {
    var m := s.manager;
    s.connected && k !in m.inFlight && k !in s.rejected ==>
      && (k in s.held <==> m.StateOf(k) == Subscribed)
      && (m.Demand(k) > 0 && k !in s.held ==> Reconcile in m.Pending(k))
  }

  ghost predicate KeyInvariant(s: System, k: Key) {
    CountsAgree(s, k) && StateAgrees(s, k) && ChannelAgrees(s, k)
  }

  ghost predicate Invariant(s: System) {
    && (!s.connected ==> s.held == {})
    && (s.manager.redisDisconnected ==> !s.connected)
    && forall k :: KeyInvariant(s, k)
  }

  lemma InitialInvariant(s: System)
    requires Initial(s)
    ensures Invariant(s)
  {
    forall k ensures KeyInvariant(s, k) {
      assert s.Listeners(k) == {};
    }
  }

  lemma NetAppend(ops: seq<Operation>, op: Operation)
    ensures Net(ops + [op]) == Net(ops) + match op case Increment => 1 case Decrement => -1 case Reconcile => 0
  {
    assert (ops + [op])[..|ops|] == ops;
  }

  lemma {:induction false} NetSplit(ops: seq<Operation>)
    requires ops != []
    ensures Net(ops) == Net([ops[0]]) + Net(ops[1..])
  {
    if |ops| > 1 {
      var front := ops[..|ops| - 1];
      NetSplit(front);
      assert front[1..] == ops[1..][..|ops| - 2];
    } else {
      assert ops == [ops[0]];
    }
  }

  /** Appending an operation keeps the counts as long as the listeners move with it. */
  lemma EnqueueKeepsCounts(s: System, s': System, keys: set<Key>, op: Operation, k: Key)
    requires CountsAgree(s, k)
    requires s'.manager == Enqueue(s.manager, keys, op)
    requires |s'.Listeners(k)| == |s.Listeners(k)| + if k in keys then Net([op]) else 0
    ensures CountsAgree(s', k)
  {
    var before, after := s.manager.Pending(k), s'.manager.Pending(k);
    if k in keys {
      NetAppend(before, op);
      NetAppend([], op);
      assert [] + [op] == [op];
      forall n: nat | n <= |after| ensures Projected(s'.manager, k, n) >= 0 {
        if n <= |before| {
          assert after[..n] == before[..n];
          assert Projected(s.manager, k, n) >= 0;
        } else {
          assert after[..n] == after && before[..|before|] == before;
          assert Projected(s'.manager, k, n) == Projected(s.manager, k, |before|) + Net([op]);
        }
      }
      assert after[..|after|] == after && before[..|before|] == before;
    } else {
      assert after == before;
      forall n: nat | n <= |after| ensures Projected(s'.manager, k, n) >= 0 {
        assert Projected(s.manager, k, n) >= 0;
      }
    }
  }

  lemma NetOfTail(ops: seq<Operation>, n: nat)
    requires n < |ops|
    ensures Net(ops[..n + 1]) == Net([ops[0]]) + Net(ops[1..][..n])
  {
    NetSplit(ops[..n + 1]);
    assert ops[..n + 1][1..] == ops[1..][..n];
  }

  lemma NetOfOne(op: Operation)
    ensures Net([op]) == match op case Increment => 1 case Decrement => -1 case Reconcile => 0
  {
    NetAppend([], op);
    assert [] + [op] == [op];
  }

  /** The operation that starts counts as it was counted while it waited. */
  lemma StartCounts(m: Manager, k: Key)
    requires m.Pending(k) != [] && Projected(m, k, 1) >= 0
    ensures StartNext(m, k).Pending(k) == m.Pending(k)[1..]
    ensures StartNext(m, k).Demand(k) == m.Demand(k) + Net([m.Pending(k)[0]])
  {
    assert m.Pending(k)[..1] == [m.Pending(k)[0]];
    NetOfOne(m.Pending(k)[0]);
  }

  lemma StartKeepsCounts(s: System, k: Key)
    requires Enabled(s, Start(k)) && CountsAgree(s, k)
    ensures CountsAgree(Next(s, Start(k)), k)
  {
    var ops := s.manager.Pending(k);
    var s' := Next(s, Start(k));
    assert Projected(s.manager, k, 1) >= 0;
    StartCounts(s.manager, k);
    forall n: nat | n <= |ops[1..]| ensures Projected(s'.manager, k, n) == Projected(s.manager, k, n + 1) {
      NetOfTail(ops, n);
    }
    assert s'.Listeners(k) == s.Listeners(k);
  }

  lemma NextKeepsCounts(s: System, e: Event, k: Key)
    requires Invariant(s) && Enabled(s, e)
    ensures CountsAgree(Next(s, e), k)
  {
    assert KeyInvariant(s, k);
    match e
    case Register(c, keys) => RegisterKeepsCounts(s, c, keys, k);
    case Cleanup(c) => CleanupKeepsCounts(s, c, k);
    case Start(j) =>
      if j == k {
        StartKeepsCounts(s, k);
      } else {
        OtherKeyUntouched(s, e, k);
        SameCounts(s, Next(s, e), k);
      }
    case Ready => ReadyKeepsCounts(s, k);
    case _ => SettlingKeepsDemand(s, e, k);
  }

  lemma RegisterKeepsCounts(s: System, c: ConnectionId, keys: set<Key>, k: Key)
    requires Enabled(s, Register(c, keys)) && CountsAgree(s, k)
    ensures CountsAgree(Next(s, Register(c, keys)), k)
  {
    var s' := Next(s, Register(c, keys));
    assert s'.Listeners(k) == s.Listeners(k) + if k in keys then {c} else {};
    EnqueueKeepsCounts(s, s', keys, Increment, k);
  }

  lemma CleanupKeepsCounts(s: System, c: ConnectionId, k: Key)
    requires Enabled(s, Cleanup(c)) && CountsAgree(s, k)
    ensures CountsAgree(Next(s, Cleanup(c)), k)
  {
    var s' := Next(s, Cleanup(c));
    assert s.Listeners(k) == s'.Listeners(k) + if k in s.connections[c] then {c} else {};
    EnqueueKeepsCounts(s, s', s.connections[c], Decrement, k);
  }

  lemma SettlingLeavesCounts(m: Manager, e: Event)
    requires (e.Ack? || e.Reject?) ==> e.key in m.inFlight
    ensures e.Ack? ==>
              Acknowledged(m, e.key).demandCount == m.demandCount && Acknowledged(m, e.key).pending == m.pending
    ensures e.Reject? ==> Rejected(m, e.key).demandCount == m.demandCount && Rejected(m, e.key).pending == m.pending
  {
  }

  lemma SettlingKeepsDemand(s: System, e: Event, k: Key)
    requires Enabled(s, e) && (e.Ack? || e.Reject? || e.Close?) && CountsAgree(s, k)
    ensures CountsAgree(Next(s, e), k)
  {
    var s' := Next(s, e);
    SettlingLeavesCounts(s.manager, e);
    SameCounts(s, s', k);
  }

  lemma ReadyKeepsCounts(s: System, k: Key)
    requires Enabled(s, Ready) && CountsAgree(s, k)
    ensures CountsAgree(Next(s, Ready), k)
  {
    var s' := Next(s, Ready);
    var middle := s'.(manager := s'.manager.(pending := s.manager.pending));
    SameCounts(s, middle, k);
    assert s'.Listeners(k) == middle.Listeners(k);
    EnqueueKeepsCounts(middle, s', s.manager.demandCount.Keys, Reconcile, k);
  }

  lemma SameCounts(s: System, s': System, k: Key)
    requires CountsAgree(s, k) && s'.connections == s.connections
    requires s'.manager.Pending(k) == s.manager.Pending(k)
    requires k in s.manager.demandCount <==> k in s'.manager.demandCount
    requires k in s.manager.demandCount ==> s.manager.demandCount[k] == s'.manager.demandCount[k]
    ensures CountsAgree(s', k)
  {
    assert s'.Listeners(k) == s.Listeners(k);
    forall n: nat | n <= |s'.manager.Pending(k)| ensures Projected(s'.manager, k, n) >= 0 {
      assert Projected(s.manager, k, n) >= 0;
    }
  }

  /** A waiting decrement that comes first always finds a positive count. */
  lemma DecrementFindsDemand(s: System, k: Key)
    requires Invariant(s) && s.manager.Pending(k) != [] && s.manager.Pending(k)[0] == Decrement
    ensures s.manager.Demand(k) > 0
  {
    assert KeyInvariant(s, k);
    var ops := s.manager.Pending(k);
    assert ops[..1] == [Decrement] && [Decrement][..0] == [];
    assert Projected(s.manager, k, 1) >= 0;
    assert Net([Decrement]) == -1;
  }

  /** The two manager values agree on everything they say about `k`. */
  predicate SameFor(m: Manager, m': Manager, k: Key) {
    && m'.Demand(k) == m.Demand(k)
    && (k in m'.demandCount <==> k in m.demandCount)
    && m'.StateOf(k) == m.StateOf(k)
    && m'.Pending(k) == m.Pending(k)
    && (k in m'.inFlight <==> k in m.inFlight)
    && (k in m.inFlight ==> m'.inFlight[k] == m.inFlight[k])
  }

  /** The step leaves everything that concerns `k` as it was. */
  predicate Untouched(s: System, s': System, k: Key) {
    && SameFor(s.manager, s'.manager, k)
    && s'.connected == s.connected
    && (k in s'.held <==> k in s.held)
    && (k in s'.rejected <==> k in s.rejected)
  }

  /** Starting, acknowledging or rejecting for one key is invisible to every other key. */
  lemma OtherKeyUntouched(s: System, e: Event, k: Key)
    requires Enabled(s, e) && (e.Start? || e.Ack? || e.Reject?) && e.key != k
    ensures Untouched(s, Next(s, e), k)
  {
    match e
    case Start(j) => StartLeavesOthers(s.manager, j, k);
    case Ack(j) => AcknowledgedLeavesOthers(s.manager, j, k);
    case Reject(j, tookEffect) =>
  }

  lemma NeedLeavesOthers(m: Manager, j: Key, k: Key)
    requires j != k
    ensures SameFor(m, SubscribeIfNeeded(m, j), k) && SameFor(m, UnsubscribeIfNeeded(m, j), k)
  {
  }

  lemma OperationLeavesOthers(m: Manager, j: Key, op: Operation, k: Key)
    requires j != k
    ensures SameFor(m, RunOperation(m, j, op), k)
  {
    match op
    case Increment => NeedLeavesOthers(m.(demandCount := m.demandCount[j := m.Demand(j) + 1]), j, k);
    case Decrement => NeedLeavesOthers(m.(demandCount := m.demandCount - {j}), j, k);
    case Reconcile => NeedLeavesOthers(m, j, k);
  }

  lemma StartLeavesOthers(m: Manager, j: Key, k: Key)
    requires m.Pending(j) != [] && j != k
    ensures SameFor(m, StartNext(m, j), k)
  {
    OperationLeavesOthers(m.(pending := m.pending[j := m.Pending(j)[1..]]), j, m.Pending(j)[0], k);
  }

  lemma AcknowledgedLeavesOthers(m: Manager, j: Key, k: Key)
    requires j in m.inFlight && j != k
    ensures SameFor(m, Acknowledged(m, j), k)
  {
    var settled := m.(inFlight := m.inFlight - {j});
    assert SameFor(m, settled, k);
  }

  predicate StatesAgree(s: System, k: Key) { StateAgrees(s, k) && ChannelAgrees(s, k) }

  lemma StartKeepsStates(s: System, k: Key)
    requires Enabled(s, Start(k)) && StatesAgree(s, k)
    requires s.manager.Pending(k)[0] == Decrement ==> s.manager.Demand(k) > 0
    ensures StatesAgree(Next(s, Start(k)), k)
  {
  }

  lemma AckKeepsStates(s: System, k: Key)
    requires Enabled(s, Ack(k)) && StatesAgree(s, k)
    ensures StatesAgree(Next(s, Ack(k)), k)
  {
  }

  lemma RejectKeepsStates(s: System, k: Key, tookEffect: bool)
    requires Enabled(s, Reject(k, tookEffect)) && StatesAgree(s, k)
    ensures StatesAgree(Next(s, Reject(k, tookEffect)), k)
  {
  }

  lemma ConnectionChangeKeepsStates(s: System, e: Event, k: Key)
    requires Enabled(s, e) && StatesAgree(s, k) && (e.Close? || e.Ready?)
    requires k in s.manager.demandCount ==> s.manager.demandCount[k] > 0
    ensures StatesAgree(Next(s, e), k)
  {
    match e
    case Close =>
    case Ready =>
      if k in s.manager.demandCount {
        assert Next(s, e).manager.Pending(k) == s.manager.Pending(k) + [Reconcile];
      }
  }

  lemma EnqueueKeepsStates(s: System, e: Event, k: Key)
    requires Enabled(s, e) && StatesAgree(s, k) && (e.Register? || e.Cleanup?)
    ensures StatesAgree(Next(s, e), k)
  {
    var s' := Next(s, e);
    assert s.manager.Pending(k) <= s'.manager.Pending(k);
    if Reconcile in s.manager.Pending(k) {
      var i :| 0 <= i < |s.manager.Pending(k)| && s.manager.Pending(k)[i] == Reconcile;
      assert s'.manager.Pending(k)[i] == Reconcile;
    }
  }

  lemma NextKeepsStates(s: System, e: Event, k: Key)
    requires Invariant(s) && Enabled(s, e)
    ensures StatesAgree(Next(s, e), k)
  {
    assert KeyInvariant(s, k);
    match e
    case Register(_, _) => EnqueueKeepsStates(s, e, k);
    case Cleanup(_) => EnqueueKeepsStates(s, e, k);
    case Start(j) =>
      if j != k {
        OtherKeyUntouched(s, e, k);
      } else {
        if s.manager.Pending(k)[0] == Decrement {
          DecrementFindsDemand(s, k);
        }
        StartKeepsStates(s, k);
      }
    case Ack(j) =>
      if j == k { AckKeepsStates(s, k); } else { OtherKeyUntouched(s, e, k); }
    case Reject(j, tookEffect) =>
      if j == k { RejectKeepsStates(s, k, tookEffect); } else { OtherKeyUntouched(s, e, k); }
    case _ => ConnectionChangeKeepsStates(s, e, k);
  }

  lemma NextKeepsInvariant(s: System, e: Event)
    requires Invariant(s) && Enabled(s, e)
    ensures Invariant(Next(s, e))
  {
    forall k ensures KeyInvariant(Next(s, e), k) {
      NextKeepsCounts(s, e, k);
      NextKeepsStates(s, e, k);
    }
  }

  lemma {:induction false} RunOneMore(s: System, events: seq<Event>, mid: System, e: Event)
    requires Run(s, events, mid) && Enabled(mid, e)
    ensures Run(s, events + [e], Next(mid, e))
    decreases events
  {
    if events == [] {
      assert [] + [e] == [e] && [e][1..] == [];
    } else {
      RunOneMore(Next(s, events[0]), events[1..], mid, e);
      RunPrepend(Next(s, events[0]), events[1..] + [e], Next(mid, e), s, events[0]);
      assert [events[0]] + (events[1..] + [e]) == events + [e];
    }
  }

  lemma {:induction false} RunKeepsInvariant(s: System, events: seq<Event>, last: System)
    requires Invariant(s) && Run(s, events, last)
    ensures Invariant(last)
    decreases events
  {
    if events != [] {
      NextKeepsInvariant(s, events[0]);
      RunKeepsInvariant(Next(s, events[0]), events[1..], last);
    }
  }

  // ---------------------------------------------------------------- main results

  /** After every interleaving, a key marked subscribed is really held by the live Redis connection. */
  lemma SubscribedIsHeld(s: System, events: seq<Event>, last: System, k: Key)
    requires Initial(s) && Run(s, events, last)
    ensures last.manager.StateOf(k) == Subscribed ==> last.connected && k in last.held && last.manager.Demand(k) > 0
  {
    InitialInvariant(s);
    RunKeepsInvariant(s, events, last);
    assert KeyInvariant(last, k);
  }

  /** The increments minus the decrements issued for a key always equal the number of its listeners, and a
      drained key has exactly that demand, with no zero entry left behind. */
  lemma DemandFollowsListeners(s: System, events: seq<Event>, last: System, k: Key)
    requires Initial(s) && Run(s, events, last)
    ensures last.manager.Demand(k) + Net(last.manager.Pending(k)) == |last.Listeners(k)|
    ensures last.Drained(k) ==> last.manager.Demand(k) == |last.Listeners(k)|
    ensures last.Drained(k) ==> (k in last.manager.demandCount <==> last.Listeners(k) != {})
    ensures last.manager.Pending(k) != [] && last.manager.Pending(k)[0] == Decrement ==> last.manager.Demand(k) > 0
  {
    InitialInvariant(s);
    RunKeepsInvariant(s, events, last);
    assert KeyInvariant(last, k);
    var ops := last.manager.Pending(k);
    assert ops[..|ops|] == ops;
    if ops != [] && ops[0] == Decrement {
      DecrementFindsDemand(last, k);
    }
  }

  /** Once a key has drained on a live connection and its latest command there was not rejected, Redis holds
      its channel exactly when some open connection listens to it. */
  lemma DrainedHoldsExactlyTheDemanded(s: System, events: seq<Event>, last: System, k: Key)
    requires Initial(s) && Run(s, events, last)
    requires last.connected && last.Drained(k) && k !in last.rejected
    ensures k in last.held <==> last.Listeners(k) != {}
    ensures k in last.held <==> last.manager.StateOf(k) == Subscribed
  {
    InitialInvariant(s);
    RunKeepsInvariant(s, events, last);
    assert KeyInvariant(last, k);
    DemandFollowsListeners(s, events, last, k);
  }

  /** No operation gets stuck: on a live connection the operations waiting for a key drain by starting them and
      acknowledging their commands. Unless the key's latest command was rejected, the channel then follows the
      listeners. */
  lemma {:induction false} DrainWithoutRejection(s: System, k: Key) returns (events: seq<Event>, last: System)
    requires Invariant(s) && s.connected && k !in s.rejected
    ensures Run(s, events, last) && forall e | e in events :: e == Start(k) || e == Ack(k)
    ensures last.Drained(k) && last.connected && last.connections == s.connections
    ensures k in last.held <==> s.Listeners(k) != {}
    decreases |s.manager.Pending(k)|, k in s.manager.inFlight
  {
    assert KeyInvariant(s, k);
    if s.Drained(k) {
      events, last := [], s;
      assert s.manager.Pending(k)[..0] == [];
      assert Projected(s.manager, k, 0) == |s.Listeners(k)|;
    } else {
      var e := if k in s.manager.inFlight then Ack(k) else Start(k);
      NextKeepsInvariant(s, e);
      var rest;
      rest, last := DrainWithoutRejection(Next(s, e), k);
      events := [e] + rest;
      assert events[1..] == rest;
      assert Next(s, e).Listeners(k) == s.Listeners(k);
    }
  }

  /** One of the waiting operations will issue a command: until the first that does, the state stays what it is and
      only the demand moves. */
  predicate Retries(state: SubscriptionState, demand: nat, ops: seq<Operation>)
    decreases ops
  {
    ops != [] &&
    match ops[0]
    case Increment => state == Idle || Retries(state, demand + 1, ops[1..])
    case Reconcile => (demand > 0 && state == Idle) || Retries(state, demand, ops[1..])
    case Decrement =>
      (demand == 1 && state == Subscribed) || Retries(state, if demand == 0 then 0 else demand - 1, ops[1..])
  }

  /** What can be told of a key before it drains: its latest command was not rejected, or another one is on its way or
      will be issued, or the channel happens to be as the listeners want it. */
  predicate WillAgree(s: System, k: Key) {
    || k !in s.rejected
    || k in s.manager.inFlight
    || Retries(s.manager.StateOf(k), s.manager.Demand(k), s.manager.Pending(k))
    || (k in s.held <==> s.Listeners(k) != {})
  }

  /** Starting an operation issues a command, or leaves the question to the operations after it. */
  lemma StartOfRejected(s: System, k: Key)
    requires Invariant(s) && Enabled(s, Start(k)) && s.connected && k in s.rejected
    ensures var after := Next(s, Start(k));
            && after.Listeners(k) == s.Listeners(k) && after.held == s.held && after.rejected == s.rejected
            && (WillAgree(after, k) <==> WillAgree(s, k))
  {
    assert KeyInvariant(s, k);
    if s.manager.Pending(k)[0] == Decrement {
      DecrementFindsDemand(s, k);
    }
    assert Next(s, Start(k)).Listeners(k) == s.Listeners(k);
  }

  /** From every reachable state of a live connection the operations waiting for a key drain by starting them and
      acknowledging their commands, and the channel then follows the listeners exactly if that could be told before. */
  lemma {:induction false} DrainReachesAgreement(s: System, k: Key) returns (events: seq<Event>, last: System)
    requires Invariant(s) && s.connected
    ensures Run(s, events, last) && forall e | e in events :: e == Start(k) || e == Ack(k)
    ensures last.Drained(k) && last.connected && last.connections == s.connections
    ensures (k in last.held <==> s.Listeners(k) != {}) <==> WillAgree(s, k)
    decreases |s.manager.Pending(k)|, k in s.manager.inFlight
  {
    assert KeyInvariant(s, k);
    if k !in s.rejected {
      events, last := DrainWithoutRejection(s, k);
    } else if s.Drained(k) {
      events, last := [], s;
    } else {
      var e := if k in s.manager.inFlight then Ack(k) else Start(k);
      NextKeepsInvariant(s, e);
      if e == Start(k) {
        StartOfRejected(s, k);
      }
      var rest;
      rest, last := DrainReachesAgreement(Next(s, e), k);
      events := [e] + rest;
      assert events[1..] == rest;
      assert Next(s, e).Listeners(k) == s.Listeners(k);
    }
  }

  /** Why the rejection matters: one rejected unsubscribe leaves a channel held that nobody listens to, and the
      manager regards it as idle. */
  lemma RejectedUnsubscribeLeavesChannelHeld(k: Key) returns (s: System, events: seq<Event>, last: System)
    ensures Initial(s) && Run(s, events, last)
    ensures last.connected && last.Drained(k) && last.rejected == {k}
    ensures k in last.held && last.Listeners(k) == {} && last.manager.StateOf(k) == Idle
  {
    s := System(NEW_MANAGER, true, {}, {}, map[]);
    var s1 := Next(s, Register(0, {k}));
    var s2 := Next(s1, Start(k));
    var s3 := Next(s2, Ack(k));
    var s4 := Next(s3, Cleanup(0));
    var s5 := Next(s4, Start(k));
    last := Next(s5, Reject(k, false));
    events := [Reject(k, false)];
    RunPrepend(s5, events, last, s4, Start(k));
    RunPrepend(s4, [Start(k)] + events, last, s3, Cleanup(0));
    RunPrepend(s3, [Cleanup(0)] + ([Start(k)] + events), last, s2, Ack(k));
    RunPrepend(s2, [Ack(k)] + ([Cleanup(0)] + ([Start(k)] + events)), last, s1, Start(k));
    RunPrepend(s1, [Start(k)] + ([Ack(k)] + ([Cleanup(0)] + ([Start(k)] + events))), last, s, Register(0, {k}));
    events := [Register(0, {k})] + ([Start(k)] + ([Ack(k)] + ([Cleanup(0)] + ([Start(k)] + events))));
  }

  /** And one rejected subscribe leaves a connection listening to a channel that is not held, with nothing waiting to
      try again. */
  lemma RejectedSubscribeLeavesListenerUnserved(k: Key) returns (s: System, events: seq<Event>, last: System)
    ensures Initial(s) && Run(s, events, last)
    ensures last.connected && last.Drained(k) && last.rejected == {k}
    ensures k !in last.held && last.Listeners(k) == {0} && last.manager.StateOf(k) == Idle
  {
    s := System(NEW_MANAGER, true, {}, {}, map[]);
    var s1 := Next(s, Register(0, {k}));
    var s2 := Next(s1, Start(k));
    last := Next(s2, Reject(k, false));
    events := [Reject(k, false)];
    RunPrepend(s2, events, last, s1, Start(k));
    RunPrepend(s1, [Start(k)] + events, last, s, Register(0, {k}));
    events := [Register(0, {k})] + ([Start(k)] + events);
  }

  /** A rejected subscribe that took effect agrees with the listeners at first; when the listener leaves, the state is
      idle, so no unsubscribe is issued and the channel stays held. */
  lemma EffectiveRejectionLeavesChannelHeld(k: Key)
    returns (s: System, events: seq<Event>, agrees: System, last: System)
    ensures Initial(s) && Run(s, [Register(0, {k}), Start(k), Reject(k, true)], agrees)
    ensures k in agrees.held && agrees.Listeners(k) == {0} && agrees.Drained(k)
    ensures events == [Cleanup(0), Start(k)] && Run(agrees, events, last)
    ensures last.connected && last.Drained(k) && last.rejected == {k}
    ensures k in last.held && last.Listeners(k) == {} && last.manager.StateOf(k) == Idle
  {
    s := System(NEW_MANAGER, true, {}, {}, map[]);
    var s1 := Next(s, Register(0, {k}));
    var s2 := Next(s1, Start(k));
    agrees := Next(s2, Reject(k, true));
    RunPrepend(s2, [Reject(k, true)], agrees, s1, Start(k));
    RunPrepend(s1, [Start(k)] + [Reject(k, true)], agrees, s, Register(0, {k}));
    assert [Register(0, {k})] + ([Start(k)] + [Reject(k, true)]) == [Register(0, {k}), Start(k), Reject(k, true)];
    var s4 := Next(agrees, Cleanup(0));
    last := Next(s4, Start(k));
    RunPrepend(s4, [Start(k)], last, agrees, Cleanup(0));
    events := [Cleanup(0)] + [Start(k)];
  }

  /** What a rejection does to agreement, exactly: with nothing else waiting for the key, the channel follows the
      listeners afterwards if and only if the command took effect all the same or had nothing to do. */
  lemma RejectionOutcome(s: System, k: Key, tookEffect: bool)
    requires Invariant(s) && s.connected && s.manager.Pending(k) == [] && k in s.manager.inFlight
    ensures var last := Next(s, Reject(k, tookEffect));
            && last.Drained(k) && last.connected
            && ((k in last.held <==> last.Listeners(k) != {})
                <==> tookEffect || (k in s.held <==> s.manager.inFlight[k] == SubscribeCommand))
  {
    assert KeyInvariant(s, k);
    assert s.manager.Pending(k)[..0] == [];
    assert Projected(s.manager, k, 0) == |s.Listeners(k)|;
    assert Next(s, Reject(k, tookEffect)).Listeners(k) == s.Listeners(k);
  }

  lemma RunPrepend(s: System, events: seq<Event>, last: System, before: System, e: Event)
    requires Run(s, events, last) && Enabled(before, e) && Next(before, e) == s
    ensures Run(before, [e] + events, last)
  {
    assert ([e] + events)[1..] == events;
  }
}
