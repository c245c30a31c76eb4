/** The broker: open connections, the index from channel keys to connections, and routing of events.

    Connections are objects that the broker's map, the index and suspended flush loops all refer to. */
module SseBroker {
  import opened Collections
  import opened EventRegistry
  import opened SseFraming
  import opened ConnectionQueue
  import opened SubscriptionManager

  datatype RoutedEvent = RoutedEvent(eventType: EventType, routingKey: string, systemId: string, data: string)

  /** What a scan of all connections would pick for an event. */
  predicate Selected(c: Connection, event: RoutedEvent) {
    && c.eventType == event.eventType
    && event.routingKey in c.routingKeys
    && (c.systemIdAllowlist.None? || event.systemId in c.systemIdAllowlist.value)
  }

  predicate DropsClient(c: Connection, event: RoutedEvent) {
    Selected(c, event) && Attempt(c, event.data).isClosed
  }

  function AfterEvent(c: Connection, event: RoutedEvent): Connection {
    if Selected(c, event) then Attempt(c, event.data) else c
  }

  /** What a message from Redis makes of a connection. */
  function AfterMessage(c: Connection, channel: string, payload: Option<(string, string)>): Connection {
    match FindByChannel(channel)
    case Some(found) =>
      if payload.None? then c
      else AfterEvent(c, RoutedEvent(found.eventType, found.routingKey, payload.value.0, payload.value.1))
    case None => c
  }

  /** What the event makes of each connection, and which ones it costs. */
  ghost predicate Planned(was: map<nat, Connection>, event: RoutedEvent, goal: map<nat, Connection>, doomed: set<nat>) {
    && goal.Keys == was.Keys && doomed <= was.Keys
    && forall id | id in was ::
         goal[id] == AfterEvent(was[id], event) && (id in doomed <==> DropsClient(was[id], event))
  }

  lemma Plan(was: map<nat, Connection>, event: RoutedEvent) returns (goal: map<nat, Connection>, doomed: set<nat>)
    ensures Planned(was, event, goal, doomed)
  {
    goal := map id | id in was :: AfterEvent(was[id], event);
    doomed := set id | id in was && DropsClient(was[id], event);
  }

  lemma PlannedAt(was: map<nat, Connection>, event: RoutedEvent, goal: map<nat, Connection>, doomed: set<nat>, id: nat)
    requires Planned(was, event, goal, doomed) && id in was
    ensures goal[id] == AfterEvent(was[id], event) && (id in doomed <==> DropsClient(was[id], event))
  {
  }

  lemma OverflowCloses(c: Connection, f: Frame)
    requires !c.isClosed
    ensures Enqueue(c, f).isClosed <==> Overflows(c, f)
  {
  }

  lemma UnselectedUntouched(c: Connection, event: RoutedEvent)
    ensures !(c.eventType == event.eventType && event.routingKey in c.routingKeys) ==>
              AfterEvent(c, event) == c && !DropsClient(c, event)
  {
  }

  /** Demand operations for connections dropped one after the other. */
  function CountDown(m: Subscriptions.Manager, listening: map<nat, set<string>>,
                     dropped: seq<nat>): Subscriptions.Manager
  {
    if dropped == [] then m
    else
      var before, id := CountDown(m, listening, dropped[..|dropped| - 1]), dropped[|dropped| - 1];
      if id in listening then Subscriptions.Enqueue(before, listening[id], Subscriptions.Decrement) else before
  }

  /** The demand after a connection was cleaned up, if it was. */
  function AfterCleanup(m: Subscriptions.Manager, listening: map<nat, set<string>>, id: nat,
                        cleaned: bool): Subscriptions.Manager
  {
    if cleaned && id in listening then Subscriptions.Enqueue(m, listening[id], Subscriptions.Decrement) else m
  }

  function Ids(dropped: seq<nat>): set<nat> { set id | id in dropped }

  predicate NoRepeats(dropped: seq<nat>) { forall i, j | 0 <= i < j < |dropped| :: dropped[i] != dropped[j] }

  lemma IdsOneMore(dropped: seq<nat>, id: nat, visited: set<nat>, doomed: set<nat>)
    requires Ids(dropped) == visited * doomed && NoRepeats(dropped) && id !in visited
    ensures var longer := if id in doomed then dropped + [id] else dropped;
            Ids(longer) == (visited + {id}) * doomed && NoRepeats(longer)
  {
    assert Ids(dropped + [id]) == Ids(dropped) + {id};
    assert forall i | 0 <= i < |dropped| :: dropped[i] in Ids(dropped);
  }

  /** The two frames that open a stream. */
  const RETRY_FRAME := LineFrame("retry: 2000")
  const CONNECTED_FRAME := LineFrame(": connected")

  function Greeted(c: Connection): Connection { Enqueue(Enqueue(c, RETRY_FRAME), CONNECTED_FRAME) }

  lemma GreetedOutcome(c: Connection)
    requires !c.isClosed
    ensures Overflows(c, RETRY_FRAME) ==> Greeted(c) == Enqueue(c, RETRY_FRAME) && Greeted(c).isClosed
    ensures !Overflows(c, RETRY_FRAME) ==>
              !Enqueue(c, RETRY_FRAME).isClosed
                && Greeted(c).isClosed == Overflows(Enqueue(c, RETRY_FRAME), CONNECTED_FRAME)
  {
    OverflowCloses(c, RETRY_FRAME);
    if !Overflows(c, RETRY_FRAME) {
      OverflowCloses(Enqueue(c, RETRY_FRAME), CONNECTED_FRAME);
    }
  }

  lemma CountDownOne(m: Subscriptions.Manager, listening: map<nat, set<string>>, dropped: seq<nat>, id: nat)
    requires id in listening
    ensures CountDown(m, listening, dropped + [id])
         == Subscriptions.Enqueue(CountDown(m, listening, dropped), listening[id], Subscriptions.Decrement)
  {
    assert (dropped + [id])[..|dropped|] == dropped;
  }

  function KeysOf(eventType: EventType, routingKeys: set<string>): set<string> {
    set k | k in routingKeys :: DemandKey(eventType, k)
  }

  lemma KeyListed(eventType: EventType, routingKeys: set<string>, t: EventType, k: string)
    ensures DemandKey(t, k) in KeysOf(eventType, routingKeys) <==> t == eventType && k in routingKeys
  {
    if DemandKey(t, k) in KeysOf(eventType, routingKeys) {
      var j :| j in routingKeys && DemandKey(eventType, j) == DemandKey(t, k);
      DemandKeyRoundTrip(t, k);
      DemandKeyRoundTrip(eventType, j);
      NameInjective(t, eventType);
    }
  }

  class SseConnection {
    const id: nat
    const eventType: EventType
    const routingKeys: set<string>
    const systemIdAllowlist: Option<set<string>>
    var queue: seq<Frame>
    var queuedBytes: int
    var isFlushing: bool
    var isClosed: bool
    var nextEventId: nat
    var writableEnded: bool
    ghost var awaitingWrite: nat
    ghost var awaitingCleanup: nat
    ghost var accepted: seq<Frame>
    ghost var written: seq<Frame>

    constructor (id: nat, eventType: EventType, routingKeys: set<string>, systemIdAllowlist: Option<set<string>>)
      ensures View() == NewConnection(eventType, routingKeys, systemIdAllowlist) && this.id == id
    {
      this.id, this.eventType := id, eventType;
      this.routingKeys, this.systemIdAllowlist := routingKeys, systemIdAllowlist;
      queue, queuedBytes, isFlushing, isClosed, nextEventId, writableEnded := [], 0, false, false, 1, false;
      awaitingWrite, awaitingCleanup, accepted, written := 0, 0, [], [];
    }

    ghost function View(): Connection
      reads this
    {
      Connection(eventType, routingKeys, systemIdAllowlist, queue, queuedBytes, isFlushing, isClosed, nextEventId,
                 writableEnded, awaitingWrite, awaitingCleanup, accepted, written)
    }

    function Keys(): set<string> { KeysOf(eventType, routingKeys) }

    method NextFrame(data: string) returns (frame: Frame)
      modifies this`nextEventId
      ensures frame == EventFrame(old(nextEventId), Name(eventType), data) && nextEventId == old(nextEventId) + 1
      ensures Enqueue(View(), frame) == Attempt(old(View()), data) && isClosed == old(isClosed)
      ensures !isClosed ==> (Overflows(View(), frame) <==> Attempt(old(View()), data).isClosed)
    {
      frame := EventFrame(nextEventId, Name(eventType), data);
      ghost var next := View().(nextEventId := nextEventId + 1);
      if !isClosed {
        OverflowCloses(next, frame);
      }
      nextEventId := nextEventId + 1;
      assert View() == next;
    }

    /** Take the frame into the queue and start the flush loop unless it is at work. */
    method Push(f: Frame)
      requires !isClosed && !Overflows(View(), f)
      modifies this
      ensures View() == Enqueue(old(View()), f)
    {
      queue := queue + [f];
      queuedBytes := queuedBytes + FrameBytes(f);
      accepted := accepted + [f];
      if !isFlushing {
        FlushQueue();
      }
    }

    method FlushQueue()
      modifies this
      ensures View() == StartFlush(old(View()))
    {
      if isClosed || isFlushing {
        return;
      }
      isFlushing := true;
      ContinueFlush();
    }

    method ContinueFlush()
      modifies this
      ensures View() == FlushOn(old(View()))
    {
      if |queue| > 0 {
        var frame := queue[0];
        queue := queue[1..];
        queuedBytes := queuedBytes - FrameBytes(frame);
        if !(isClosed || writableEnded) {
          written := written + [frame];
        }
        awaitingWrite := awaitingWrite + 1;
      } else {
        isFlushing := false;
      }
    }

    method OnWritten()
      requires awaitingWrite > 0
      modifies this
      ensures View() == WriteSettled(old(View()), true)
    {
      awaitingWrite := awaitingWrite - 1;
      if isClosed {
        isFlushing := false;
        return;
      }
      ContinueFlush();
    }

    /** The cleanup that a failed flush loop awaited is done. */
    method OnCleanupSettled()
      requires awaitingCleanup > 0
      modifies this
      ensures View() == CleanupSettled(old(View()))
    {
      awaitingCleanup := awaitingCleanup - 1;
      isFlushing := false;
    }

    /** The client hung up and the response is over, whatever the broker knows of it. */
    method OnResponseEnded()
      modifies this`writableEnded
      ensures View() == old(View()).(ended := true)
    {
      writableEnded := true;
    }

    method Shut()
      modifies this
      ensures View() == Cleanup(old(View()))
    {
      if !isClosed {
        isClosed := true;
        queue, queuedBytes := [], 0;
        writableEnded := true;
      }
    }
  }

  ghost function ListeningOf(connections: map<nat, SseConnection>): map<nat, set<string>> {
    map id | id in connections :: connections[id].Keys()
  }

  lemma ListeningWithout(connections: map<nat, SseConnection>, gone: set<nat>)
    ensures ListeningOf(connections - gone) == ListeningOf(connections) - gone
    ensures ListeningOf(connections).Keys == connections.Keys
  {
  }

  lemma ListeningWith(connections: map<nat, SseConnection>, id: nat, connection: SseConnection)
    ensures ListeningOf(connections[id := connection]) == ListeningOf(connections)[id := connection.Keys()]
  {
  }

  /** A connection that may have been removed, or removed twice. */
  lemma GoneAtMostOnce(connections: map<nat, SseConnection>, id: nat, first: bool, second: bool)
    ensures connections - (if first then {id} else {}) - (if second then {id} else {})
         == connections - (if first || second then {id} else {})
    ensures ListeningOf(connections - (if first then {id} else {}))
         == if first then ListeningOf(connections) - {id} else ListeningOf(connections)
  {
  }

  // what is fixed while one event is routed
  datatype Routed = Routed(
    key: string,
    before: map<nat, SseConnection>,
    was: map<nat, Connection>,
    goal: map<nat, Connection>,
    doomed: set<nat>,
    indexed: set<nat>,
    listening: map<nat, set<string>>,
    demand: Subscriptions.Manager)
  {
    ghost predicate Fits(event: RoutedEvent) {
      && key == DemandKey(event.eventType, event.routingKey)
      && Planned(was, event, goal, doomed)
      && listening.Keys == before.Keys
      && (forall id | id in before :: listening[id] == before[id].Keys())
      && indexed <= before.Keys
      && (forall id | id in before :: id in indexed <==> key in before[id].Keys())
      && (forall id | id in before :: before[id].id == id)
    }
  }

  class Broker {
    var connectionsById: map<nat, SseConnection>
    var connectionIdsByChannelKey: map<string, set<nat>>
    var nextConnectionId: nat
    const redisSubscriptions: RedisSubscriptionManager

    constructor (redisSubscriptions: RedisSubscriptionManager)
      ensures Valid() && connectionsById == map[] && this.redisSubscriptions == redisSubscriptions
    {
      this.redisSubscriptions := redisSubscriptions;
      connectionsById, connectionIdsByChannelKey, nextConnectionId := map[], map[], 1;
    }

    ghost function Listeners(key: string): set<nat>
      reads this`connectionsById
    {
      set id | id in connectionsById && key in connectionsById[id].Keys()
    }

    ghost function Views(): map<nat, Connection>
      reads this, connectionsById.Values
    {
      map id | id in connectionsById :: connectionsById[id].View()
    }

    function Indexed(key: string): set<nat>
      reads this`connectionIdsByChannelKey
    {
      if key in connectionIdsByChannelKey then connectionIdsByChannelKey[key] else {}
    }

    /** The connections and the keys they listen to, as the subscription protocol sees them. */
    ghost function Listening(): map<nat, set<string>>
      reads this
    {
      ListeningOf(connectionsById)
    }

    ghost predicate IndexAgrees()
      reads this
    {
      NoEmptyEntry() && forall key :: Indexed(key) == Listeners(key)
    }

    ghost predicate Valid()
      reads this, connectionsById.Values
    {
      && IndexAgrees()
      && (forall id | id in connectionsById ::
            id < nextConnectionId && connectionsById[id].id == id && !connectionsById[id].isClosed)
    }

    /** The part of a registration before its await: the connection is listed and indexed under each of its
        keys, and demand is counted once for each. */
    method Register(eventType: EventType, routingKeys: set<string>, systemIdAllowlist: Option<set<string>>)
      returns (id: nat, connection: SseConnection)
      requires Valid()
      modifies this, redisSubscriptions
      ensures Valid() && fresh(connection) && connection.id == id == old(nextConnectionId) && nextConnectionId == id + 1
      ensures id !in old(connectionsById) && connectionsById == old(connectionsById)[id := connection]
      ensures connection.View() == NewConnection(eventType, routingKeys, systemIdAllowlist)
      ensures Listening() == old(Listening())[id := KeysOf(eventType, routingKeys)]
      ensures redisSubscriptions.View()
           == Subscriptions.Enqueue(old(redisSubscriptions.View()), KeysOf(eventType, routingKeys),
                                    Subscriptions.Increment)
    {
      id := nextConnectionId;
      connection := new SseConnection(id, eventType, routingKeys, systemIdAllowlist);
      ListeningWith(connectionsById, id, connection);
      AddConnection(id, connection);
      CountDemand(connection.Keys(), Subscriptions.Increment);
    }

    ghost predicate NoEmptyEntry()
      reads this`connectionIdsByChannelKey
    {
      forall key | key in connectionIdsByChannelKey :: connectionIdsByChannelKey[key] != {}
    }

    /** List the connection and index it under its keys. */
    method AddConnection(id: nat, connection: SseConnection)
      requires Valid() && id == nextConnectionId && connection.id == id && !connection.isClosed
      modifies this`connectionsById, this`connectionIdsByChannelKey, this`nextConnectionId
      ensures Valid() && connectionsById == old(connectionsById)[id := connection] && nextConnectionId == id + 1
    {
      nextConnectionId := nextConnectionId + 1;
      connectionsById := connectionsById[id := connection];
      ListUnder(id, connection.Keys());
      assert forall key :: Listeners(key) == old(Listeners(key)) + if key in connection.Keys() then {id} else {};
    }

    method ListUnder(id: nat, keys: set<string>)
      requires NoEmptyEntry()
      modifies this`connectionIdsByChannelKey
      ensures NoEmptyEntry()
      ensures forall key :: Indexed(key) == old(Indexed(key)) + if key in keys then {id} else {}
    {
      var todo := keys;
      while todo != {}
        invariant todo <= keys && NoEmptyEntry()
        invariant forall key :: Indexed(key) == old(Indexed(key)) + if key in keys - todo then {id} else {}
        decreases todo
      {
        var key :| key in todo;
        connectionIdsByChannelKey := connectionIdsByChannelKey[key := Indexed(key) + {id}];
        todo := todo - {key};
      }
    }

    method UnlistFrom(id: nat, keys: set<string>)
      requires NoEmptyEntry()
      modifies this`connectionIdsByChannelKey
      ensures NoEmptyEntry()
      ensures forall key :: Indexed(key) == old(Indexed(key)) - if key in keys then {id} else {}
    {
      var todo := keys;
      while todo != {}
        invariant todo <= keys && NoEmptyEntry()
        invariant forall key :: Indexed(key) == old(Indexed(key)) - if key in keys - todo then {id} else {}
        decreases todo
      {
        var key :| key in todo;
        if key in connectionIdsByChannelKey {
          var ids := connectionIdsByChannelKey[key] - {id};
          connectionIdsByChannelKey :=
            if ids == {} then connectionIdsByChannelKey - {key} else connectionIdsByChannelKey[key := ids];
        }
        todo := todo - {key};
      }
    }

    /** One serialized demand operation per key. */
    method CountDemand(keys: set<string>, op: Subscriptions.Operation)
      modifies redisSubscriptions
      ensures redisSubscriptions.View() == Subscriptions.Enqueue(old(redisSubscriptions.View()), keys, op)
    {
      var todo := keys;
      while todo != {}
        invariant todo <= keys
        invariant redisSubscriptions.View() == Subscriptions.Enqueue(old(redisSubscriptions.View()), keys - todo, op)
        decreases todo
      {
        var key :| key in todo;
        Subscriptions.EnqueueOneMore(old(redisSubscriptions.View()), keys - todo, key, op);
        redisSubscriptions.RunSerialized(key, op);
        assert keys - (todo - {key}) == keys - todo + {key};
        todo := todo - {key};
      }
    }

    method CleanupConnection(id: nat)
      requires Valid()
      modifies this`connectionsById, this`connectionIdsByChannelKey
      modifies redisSubscriptions, if id in connectionsById then {connectionsById[id]} else {}
      ensures Valid() && connectionsById == old(connectionsById) - {id}
      ensures id in old(connectionsById) ==>
                old(connectionsById)[id].View() == Cleanup(old(connectionsById[id].View()))
      ensures redisSubscriptions.View()
           == AfterCleanup(old(redisSubscriptions.View()), old(Listening()), id, id in old(connectionsById))
    {
      if id !in connectionsById {
        return;
      }
      var connection := connectionsById[id];
      connection.Shut();
      RemoveConnection(id, connection);
      CountDemand(connection.Keys(), Subscriptions.Decrement);
    }

    method RemoveConnection(id: nat, connection: SseConnection)
      requires id in connectionsById && connectionsById[id] == connection && IndexAgrees()
      modifies this`connectionsById, this`connectionIdsByChannelKey
      ensures IndexAgrees() && connectionsById == old(connectionsById) - {id}
    {
      connectionsById := connectionsById - {id};
      UnlistFrom(id, connection.Keys());
      assert forall key :: Listeners(key) == old(Listeners(key)) - if key in connection.Keys() then {id} else {};
    }

    method EnqueueRawFrame(id: nat, f: Frame) returns (ghost drops: bool)
      requires Valid()
      modifies this`connectionsById, this`connectionIdsByChannelKey
      modifies redisSubscriptions, if id in connectionsById then {connectionsById[id]} else {}
      ensures Valid()
      ensures id in old(connectionsById) ==>
                old(connectionsById)[id].View() == Enqueue(old(connectionsById[id].View()), f)
      ensures id in old(connectionsById) ==>
                (drops <==> |old(connectionsById[id].queue)| >= 200
                            || old(connectionsById[id].queuedBytes) + ByteLength(Serialize(f)) > 1_048_576)
      ensures drops == (id in old(connectionsById) && old(connectionsById)[id].isClosed)
      ensures connectionsById == old(connectionsById) - (if drops then {id} else {})
      ensures redisSubscriptions.View() == AfterCleanup(old(redisSubscriptions.View()), old(Listening()), id, drops)
    {
      drops := false;
      if id !in connectionsById {
        return;
      }
      var connection := connectionsById[id];
      OverflowCloses(connection.View(), f);
      drops := Overflows(connection.View(), f);
      if |connection.queue| + 1 > MAX_QUEUE_MESSAGES || connection.queuedBytes + FrameBytes(f) > MAX_QUEUE_BYTES {
        CleanupConnection(id);
        return;
      }
      connection.Push(f);
    }

    /** A write of the connection failed: it is cleaned up and its flush loop awaits that. */
    method OnWriteFailed(id: nat, connection: SseConnection)
      requires Valid() && connection.awaitingWrite > 0
      requires if id in connectionsById then connectionsById[id] == connection
               else connection.isClosed && connection !in connectionsById.Values
      modifies this`connectionsById, this`connectionIdsByChannelKey
      modifies redisSubscriptions, connection
      ensures Valid() && connectionsById == old(connectionsById) - {id}
      ensures connection.View() == WriteSettled(old(connection.View()), false)
      ensures redisSubscriptions.View()
           == AfterCleanup(old(redisSubscriptions.View()), old(Listening()), id, id in old(connectionsById))
    {
      ghost var listening := Listening();
      connection.awaitingWrite := connection.awaitingWrite - 1;
      assert Valid() && Listening() == listening;
      CleanupConnection(id);
      connection.awaitingCleanup := connection.awaitingCleanup + 1;
    }

    /** One indexed connection's share of an event. */
    method DeliverTo(id: nat, event: RoutedEvent) returns (ghost full: bool)
      requires Valid() && id in connectionsById
      requires connectionsById[id].eventType == event.eventType && event.routingKey in connectionsById[id].routingKeys
      modifies this`connectionsById, this`connectionIdsByChannelKey
      modifies redisSubscriptions, connectionsById[id]
      ensures Valid()
      ensures old(connectionsById)[id].View() == AfterEvent(old(connectionsById[id].View()), event)
      ensures full == DropsClient(old(connectionsById[id].View()), event)
      ensures connectionsById == old(connectionsById) - (if full then {id} else {})
      ensures redisSubscriptions.View() == AfterCleanup(old(redisSubscriptions.View()), old(Listening()), id, full)
    {
      var connection := connectionsById[id];
      full := false;
      if connection.systemIdAllowlist.None? || event.systemId in connection.systemIdAllowlist.value {
        full := SendEvent(id, event.data);
      }
    }

    /** One attempt to send an event to a connection. */
    method SendEvent(id: nat, data: string) returns (ghost full: bool)
      requires Valid() && id in connectionsById
      modifies this`connectionsById, this`connectionIdsByChannelKey
      modifies redisSubscriptions, connectionsById[id]
      ensures Valid()
      ensures old(connectionsById)[id].View() == Attempt(old(connectionsById[id].View()), data)
      ensures full == Attempt(old(connectionsById[id].View()), data).isClosed
      ensures connectionsById == old(connectionsById) - (if full then {id} else {})
      ensures redisSubscriptions.View() == AfterCleanup(old(redisSubscriptions.View()), old(Listening()), id, full)
    {
      var connection := connectionsById[id];
      ghost var listening := Listening();
      var frame := connection.NextFrame(data);
      assert Valid() && Listening() == listening;
      full := EnqueueRawFrame(id, frame);
    }

    /** Some of the indexed connections have had their share of an event: these are as `goal` says and the
        `doomed` ones among them are gone, the others are as they were. */
    ghost predicate Progress(before: map<nat, SseConnection>, was: map<nat, Connection>, goal: map<nat, Connection>,
                             doomed: set<nat>, visited: set<nat>)
      reads this`connectionsById, before.Values
    {
      && before.Keys == was.Keys == goal.Keys
      && connectionsById == before - (doomed * visited)
      && forall id | id in before :: before[id].View() == if id in visited then goal[id] else was[id]
    }

    lemma OneMoreGone(before: map<nat, SseConnection>, doomed: set<nat>, visited: set<nat>, id: nat)
      ensures before - doomed * visited - (if id in doomed then {id} else {}) == before - doomed * (visited + {id})
    {
    }

    lemma ProgressOneMore(before: map<nat, SseConnection>, was: map<nat, Connection>, goal: map<nat, Connection>,
                          doomed: set<nat>, visited: set<nat>, id: nat)
      requires before.Keys == was.Keys == goal.Keys && id in before && before[id].View() == goal[id]
      requires connectionsById == before - doomed * visited - (if id in doomed then {id} else {})
      requires forall i | i in before && i != id :: before[i].View() == if i in visited then goal[i] else was[i]
      ensures Progress(before, was, goal, doomed, visited + {id}) && connectionsById.Values <= before.Values
    {
      OneMoreGone(before, doomed, visited, id);
    }

    method VisitOne(id: nat, event: RoutedEvent, ghost before: map<nat, SseConnection>, ghost was: map<nat, Connection>,
                    ghost goal: map<nat, Connection>, ghost doomed: set<nat>, ghost visited: set<nat>)
      requires Valid() && id in connectionsById && id !in visited
      requires Progress(before, was, goal, doomed, visited)
      requires forall i | i in before :: before[i].id == i
      requires connectionsById[id].eventType == event.eventType && event.routingKey in connectionsById[id].routingKeys
      requires goal[id] == AfterEvent(was[id], event) && (id in doomed <==> DropsClient(was[id], event))
      modifies this`connectionsById, this`connectionIdsByChannelKey
      modifies redisSubscriptions, connectionsById[id]
      ensures Valid() && Progress(before, was, goal, doomed, visited + {id}) && connectionsById.Values <= before.Values
      ensures redisSubscriptions.View() ==
              AfterCleanup(old(redisSubscriptions.View()), old(Listening()), id, id in doomed)
    {
      ghost var full := DeliverTo(id, event);
      ProgressOneMore(before, was, goal, doomed, visited, id);
    }

    ghost predicate Routing(run: Routed, visited: set<nat>, dropped: seq<nat>)
      reads this, redisSubscriptions, run.before.Values
    {
      && connectionsById.Values <= run.before.Values && Valid()
      && Progress(run.before, run.was, run.goal, run.doomed, visited)
      && Ids(dropped) == visited * run.doomed && NoRepeats(dropped)
      && redisSubscriptions.View() == CountDown(run.demand, run.listening, dropped)
    }

    lemma BeforeVisit(event: RoutedEvent, id: nat, run: Routed, visited: set<nat>, dropped: seq<nat>)
      requires Routing(run, visited, dropped) && run.Fits(event) && id in Indexed(run.key) - visited
      ensures id in connectionsById && connectionsById[id] == run.before[id] && id in run.indexed
      ensures run.before[id].eventType == event.eventType && event.routingKey in run.before[id].routingKeys
      ensures run.goal[id] == AfterEvent(run.was[id], event) && (id in run.doomed <==> DropsClient(run.was[id], event))
    {
      assert id in Listeners(run.key);
      KeyListed(run.before[id].eventType, run.before[id].routingKeys, event.eventType, event.routingKey);
      PlannedAt(run.was, event, run.goal, run.doomed, id);
    }

    /** One turn of the loop over the index entry. */
    method VisitNext(event: RoutedEvent, id: nat, ghost run: Routed, ghost visited: set<nat>, ghost dropped: seq<nat>)
      returns (ghost droppedNow: seq<nat>)
      requires Routing(run, visited, dropped) && run.Fits(event) && id in Indexed(run.key) - visited
      modifies this`connectionsById, this`connectionIdsByChannelKey
      modifies redisSubscriptions, run.before.Values
      ensures Routing(run, visited + {id}, droppedNow) && id in run.indexed
    {
      BeforeVisit(event, id, run, visited, dropped);
      VisitOne(id, event, run.before, run.was, run.goal, run.doomed, visited);
      droppedNow := if id in run.doomed then dropped + [id] else dropped;
      CountDownOne(run.demand, run.listening, dropped, id);
      IdsOneMore(dropped, id, visited, run.doomed);
    }

    lemma NoneLeft(event: RoutedEvent, run: Routed, visited: set<nat>, dropped: seq<nat>)
      requires Routing(run, visited, dropped) && run.Fits(event)
      requires Indexed(run.key) - visited == {} && visited <= run.indexed
      ensures visited == run.indexed
    {
      forall id | id in run.indexed ensures id in visited {
        assert id in connectionsById ==> connectionsById[id] == run.before[id] && id in Listeners(run.key);
        assert id !in Indexed(run.key) - visited;
      }
      assert visited == run.indexed;
    }

    /** Visit the index entry of the event until no unvisited connection is left in it. */
    method VisitIndexed(event: RoutedEvent, ghost run: Routed) returns (ghost dropped: seq<nat>)
      requires Routing(run, {}, []) && run.Fits(event)
      modifies this`connectionsById, this`connectionIdsByChannelKey
      modifies redisSubscriptions, run.before.Values
      ensures Routing(run, run.indexed, dropped)
    {
      dropped := [];
      var key := DemandKey(event.eventType, event.routingKey);
      var visited: set<nat> := {};
      var live := Indexed(key);
      while live - visited != {}
        invariant Routing(run, visited, dropped) && live == Indexed(key) && visited <= run.indexed
        decreases run.indexed - visited
      {
        var id :| id in live - visited;
        dropped := VisitNext(event, id, run, visited, dropped);
        visited := visited + {id};
        live := Indexed(key);
      }
      NoneLeft(event, run, visited, dropped);
    }

    /** Route an event along the index, which loses the connections that overflow on the way. The outcome is that
        of a scan of all connections: every selected one gets exactly one attempt and no other one is touched. */
    method RouteEvent(event: RoutedEvent) returns (ghost dropped: seq<nat>)
      requires Valid()
      modifies this`connectionsById, this`connectionIdsByChannelKey
      modifies redisSubscriptions, connectionsById.Values
      ensures Valid()
      ensures forall id | id in old(Views()) ::
                old(connectionsById)[id].View() == AfterEvent(old(Views())[id], event)
      ensures forall id :: id in dropped <==> id in old(Views()) && DropsClient(old(Views())[id], event)
      ensures connectionsById == old(connectionsById) - Ids(dropped) && NoRepeats(dropped)
      ensures Ids(dropped) <= old(connectionsById).Keys
      ensures redisSubscriptions.View() == CountDown(old(redisSubscriptions.View()), old(Listening()), dropped)
    {
      ghost var goal, doomed := Plan(Views(), event);
      ghost var key := DemandKey(event.eventType, event.routingKey);
      ghost var run := Routed(key, connectionsById, Views(), goal, doomed, Listeners(key), Listening(),
                              redisSubscriptions.View());
      StartRouting(run, event);
      dropped := VisitIndexed(event, run);
      EventServed(run, event, dropped);
    }

    lemma StartRouting(run: Routed, event: RoutedEvent)
      requires Valid() && run.key == DemandKey(event.eventType, event.routingKey)
      requires run.before == connectionsById && run.was == Views() && Planned(run.was, event, run.goal, run.doomed)
      requires run.indexed == Listeners(run.key) && run.listening == Listening()
               && run.demand == redisSubscriptions.View()
      ensures Routing(run, {}, []) && run.Fits(event)
    {
      StartFits(run, event);
      assert run.doomed * {} == {};
    }

    lemma StartFits(run: Routed, event: RoutedEvent)
      requires Valid() && run.key == DemandKey(event.eventType, event.routingKey)
      requires run.before == connectionsById && run.was == Views() && Planned(run.was, event, run.goal, run.doomed)
      requires run.indexed == Listeners(run.key) && run.listening == Listening()
      ensures run.Fits(event)
    {
    }

    lemma EventServed(run: Routed, event: RoutedEvent, dropped: seq<nat>)
      requires Routing(run, run.indexed, dropped) && run.Fits(event)
      requires forall id | id in run.before ::
               run.was[id].eventType == run.before[id].eventType
               && run.was[id].routingKeys == run.before[id].routingKeys
      ensures forall id | id in run.was :: run.before[id].View() == AfterEvent(run.was[id], event)
      ensures forall id :: id in dropped <==> id in run.was && DropsClient(run.was[id], event)
      ensures connectionsById == run.before - Ids(dropped) && Ids(dropped) <= run.before.Keys
    {
      forall id | id in run.was
        ensures run.before[id].View() == AfterEvent(run.was[id], event)
        ensures id in run.doomed * run.indexed <==> DropsClient(run.was[id], event)
      {
        PlannedAt(run.was, event, run.goal, run.doomed, id);
        KeyListed(run.was[id].eventType, run.was[id].routingKeys, event.eventType, event.routingKey);
        UnselectedUntouched(run.was[id], event);
      }
      assert run.doomed * run.indexed == Ids(dropped);
      assert forall id :: id in dropped <==> id in Ids(dropped);
    }

    /** A message from Redis. On a channel built for an event type and a nonempty routing key, a valid payload
        reaches exactly the connections selected for that type and key; anything else reaches nobody. */
    method OnMessage(channel: string, payload: Option<(string, string)>) returns (ghost dropped: seq<nat>)
      requires Valid()
      modifies this`connectionsById, this`connectionIdsByChannelKey
      modifies redisSubscriptions, connectionsById.Values
      ensures Valid()
      ensures forall t, k | payload.Some? && k != "" && channel == ChannelOf(t, k) ::
                var event := RoutedEvent(t, k, payload.value.0, payload.value.1);
                && (forall id | id in old(Views()) ::
                    old(connectionsById)[id].View() == AfterEvent(old(Views())[id], event))
                && forall id :: id in dropped <==> id in old(Views()) && DropsClient(old(Views())[id], event)
      ensures forall id | id in old(Views()) ::
                old(connectionsById)[id].View() == AfterMessage(old(Views())[id], channel, payload)
      ensures forall id | id in old(connectionsById) :: id in dropped <==> old(connectionsById)[id].isClosed
      ensures payload.None? || (forall t, k | k != "" :: channel != ChannelOf(t, k)) ==>
                Views() == old(Views()) && dropped == []
      ensures Ids(dropped) <= old(connectionsById).Keys
      ensures connectionsById == old(connectionsById) - Ids(dropped) && NoRepeats(dropped)
      ensures redisSubscriptions.View() == CountDown(old(redisSubscriptions.View()), old(Listening()), dropped)
    {
      dropped := [];
      var found := FindByChannel(channel);
      forall t, k ensures found == Some(Match(t, k)) <==> channel == ChannelOf(t, k) && k != "" {
        ChannelRoundTrip(channel, t, k);
      }
      if found.None? || payload.None? {
        return;
      }
      var event := RoutedEvent(found.value.eventType, found.value.routingKey, payload.value.0, payload.value.1);
      assert found == Some(Match(event.eventType, event.routingKey));
      ghost var before := connectionsById;
      ghost var was := Views();
      dropped := RouteEvent(event);
      forall id | id in before ensures id in dropped <==> before[id].isClosed {
        assert before[id].View() == AfterEvent(was[id], event);
      }
    }

    /** The index entry of a key is the listener set over which the subscription protocol counts demand. */
    lemma IndexIsListeners(s: Subscriptions.System, key: string)
      requires Valid() && s.connections == Listening()
      ensures Indexed(key) == s.Listeners(key)
    {
      assert Indexed(key) == Listeners(key);
    }
  }
}
