/** The broker with all connections there have ever been and their flush loops: every method is one step of
    `ConnectionQueue` for each connection that it concerns, so all queues are always in order. */
module SseStreams {
  import opened Collections
  import opened EventRegistry
  import opened SseFraming
  import opened ConnectionQueue
  import opened SubscriptionManager
  import opened Text
  import opened SseBroker

  lemma StaysClosed(c: Connection, step: Step)
    requires Enabled(c, step)
    ensures c.isClosed ==> Next(c, step).isClosed
  {
  }

  lemma AfterMessageInOrder(c: Connection, channel: string, payload: Option<(string, string)>)
    requires Invariant(c) && !c.isClosed
    ensures Invariant(AfterMessage(c, channel, payload))
  {
    if FindByChannel(channel).Some? && payload.Some? {
      NextKeepsInvariant(c, Step.SendEvent(payload.value.1));
    }
  }

  /** What a message about `k` makes of a connection: nothing unless it listens to that key of that type and its
      allowlist, if any, has the system; otherwise it takes the next event id, and the event if there is room. */
  predicate Served(c: Connection, t: EventType, k: string, systemId: string, data: string, after: Connection) {
    if c.eventType == t && k in c.routingKeys && (c.systemIdAllowlist == None || systemId in c.systemIdAllowlist.value)
    then
      var text := "id: " + Decimal(c.nextEventId) + "\nevent: " + Name(t) + "\ndata: " + data + "\n\n";
      && DropsOnlyWhenFull(c, text, EventFrame(c.nextEventId, Name(t), data), after)
      && after.nextEventId == c.nextEventId + 1
    else after == c
  }

  lemma MessageServes(c: Connection, channel: string, payload: Option<(string, string)>, t: EventType, k: string)
    requires Invariant(c) && !c.isClosed && payload.Some? && channel == ChannelOf(t, k) && k != ""
    ensures Served(c, t, k, payload.value.0, payload.value.1, AfterMessage(c, channel, payload))
  {
    ChannelRoundTrip(channel, t, k);
    EventDropsOnlyWhenFull(c, payload.value.1);
  }

  ghost predicate AllServed(views: map<nat, Connection>, listed: map<nat, SseConnection>, dropped: seq<nat>,
                            channel: string, payload: Option<(string, string)>)
    requires listed.Keys <= views.Keys
    reads listed.Values
  {
    forall t, k | payload.Some? && k != "" && channel == ChannelOf(t, k) ::
      forall id | id in listed ::
        && Served(views[id], t, k, payload.value.0, payload.value.1, listed[id].View())
        && (id in dropped <==> listed[id].isClosed)
  }

  ghost predicate KeepsOrder(connection: SseConnection)
    reads connection
  {
    Invariant(connection.View())
  }

  ghost predicate WasInOrder(was: map<SseConnection, Connection>, c: SseConnection) {
    c in was && Invariant(was[c])
  }

  /** What was known of the connections before one of them took a step. */
  ghost predicate WereTracked(was: map<SseConnection, Connection>, listed: map<nat, SseConnection>, limit: nat) {
    && (forall id | id in listed :: listed[id] in was)
    && (forall c | c in was ::
          && c.id < limit
          && (c.id in listed ==> listed[c.id] == c)
          && (!was[c].isClosed ==> c.id in listed))
    && forall c {:trigger WasInOrder(was, c)} | c in was :: WasInOrder(was, c)
  }

  /** The listed connections, each under its id, were open, and `views` is what they were. */
  ghost predicate AreOpen(was: map<SseConnection, Connection>, listed: map<nat, SseConnection>,
                          views: map<nat, Connection>)
  {
    && views.Keys == listed.Keys
    && forall id | id in listed ::
         listed[id] in was && listed[id].id == id && views[id] == was[listed[id]] && !views[id].isClosed
  }

  class SseStreams {
    const broker: Broker
    // the connections ever registered; the flush loop of a closed one may still be suspended
    ghost var registered: set<SseConnection>

    constructor (manager: RedisSubscriptionManager)
      ensures Valid() && fresh(broker) && broker.redisSubscriptions == manager
      ensures registered == {} && broker.connectionsById == map[]
    {
      broker := new Broker(manager);
      registered := {};
    }

    /** The connections that are open are the listed ones. */
    ghost predicate OpenAreListed()
      reads this`registered, broker, registered
    {
      && (forall id | id in broker.connectionsById :: broker.connectionsById[id] in registered)
      && forall c | c in registered ::
           && c.id < broker.nextConnectionId
           && (c.id in broker.connectionsById ==> broker.connectionsById[c.id] == c)
           && (!c.isClosed ==> c.id in broker.connectionsById)
    }

    ghost predicate QueuesInOrder()
      reads this`registered, registered
    {
      forall c {:trigger KeepsOrder(c)} | c in registered :: KeepsOrder(c)
    }

    ghost predicate Tracked()
      reads this`registered, broker, registered
    {
      OpenAreListed() && QueuesInOrder()
    }

    ghost predicate Valid()
      reads this`registered, broker, broker.connectionsById.Values, registered
    {
      broker.Valid() && Tracked()
    }

    lemma Remember() returns (was: map<SseConnection, Connection>)
      requires Tracked()
      ensures WereTracked(was, broker.connectionsById, broker.nextConnectionId) && was.Keys == registered
      ensures forall c | c in registered :: was[c] == c.View()
    {
      was := map c | c in registered :: c.View();
      forall c | c in registered ensures WasInOrder(was, c) {
        assert KeepsOrder(c);
      }
    }

    lemma ListedAreOpen(was: map<SseConnection, Connection>)
      requires Valid() && was.Keys == registered && forall c | c in registered :: was[c] == c.View()
      ensures AreOpen(was, broker.connectionsById, broker.Views())
    {
    }

    lemma LineDrops(c: SseConnection, line: string)
      requires Valid() && c in registered && !c.isClosed
      ensures DropsOnlyWhenFull(c.View(), line + "\n\n", LineFrame(line), Next(c.View(), Step.SendLine(line)))
    {
      assert KeepsOrder(c);
      LineDropsOnlyWhenFull(c.View(), line);
    }

    /** The views after a message, without mentioning how they were computed. */
    lemma MessageServesAll(was: map<SseConnection, Connection>, listed: map<nat, SseConnection>,
                           views: map<nat, Connection>, dropped: seq<nat>, channel: string,
                           payload: Option<(string, string)>)
      requires WereTracked(was, listed, broker.nextConnectionId) && AreOpen(was, listed, views)
      requires forall id | id in listed :: listed[id].View() == AfterMessage(views[id], channel, payload)
      requires forall id | id in listed :: id in dropped <==> listed[id].isClosed
      ensures AllServed(views, listed, dropped, channel, payload)
    {
      forall t, k, id | payload.Some? && k != "" && channel == ChannelOf(t, k) && id in listed
        ensures Served(views[id], t, k, payload.value.0, payload.value.1, listed[id].View())
      {
        assert WasInOrder(was, listed[id]);
        MessageServes(views[id], channel, payload, t, k);
      }
    }

    lemma OneChanged(was: map<SseConnection, Connection>, listed: map<nat, SseConnection>, connection: SseConnection)
      requires WereTracked(was, listed, broker.nextConnectionId) && was.Keys == registered && connection in registered
      requires forall c | c in registered && c != connection :: c.View() == was[c]
      requires KeepsOrder(connection) && (was[connection].isClosed ==> connection.isClosed)
      requires !connection.isClosed ==> broker.connectionsById == listed
      requires connection.isClosed ==> broker.connectionsById == listed - {connection.id}
      ensures Tracked()
    {
      forall c | c in registered && c != connection ensures c.isClosed == was[c].isClosed && KeepsOrder(c) {
        assert c.View().isClosed == was[c].isClosed && WasInOrder(was, c);
      }
    }

    /** One connection took a step of its queue and is unlisted if it is closed now; the others did not change. */
    lemma StepTracked(was: map<SseConnection, Connection>, listed: map<nat, SseConnection>, connection: SseConnection,
                      step: Step)
      requires WereTracked(was, listed, broker.nextConnectionId) && was.Keys == registered && connection in registered
      requires forall c | c in registered && c != connection :: c.View() == was[c]
      requires Enabled(was[connection], step) && connection.View() == Next(was[connection], step)
      requires !connection.isClosed ==> broker.connectionsById == listed
      requires connection.isClosed ==> broker.connectionsById == listed - {connection.id}
      ensures Tracked()
    {
      assert KeepsOrder(connection) by {
        assert WasInOrder(was, connection);
        NextKeepsInvariant(was[connection], step);
      }
      StaysClosed(was[connection], step);
      OneChanged(was, listed, connection);
    }

    /** Every listed connection got its share of a message. */
    lemma MessageTracked(was: map<SseConnection, Connection>, listed: map<nat, SseConnection>,
                         views: map<nat, Connection>, dropped: seq<nat>, channel: string,
                         payload: Option<(string, string)>)
      requires WereTracked(was, listed, broker.nextConnectionId) && was.Keys == registered
      requires AreOpen(was, listed, views)
      requires forall id | id in listed :: listed[id].View() == AfterMessage(views[id], channel, payload)
      requires forall c | c in registered && c.id !in listed :: c.View() == was[c]
      requires forall id | id in listed :: id in dropped <==> listed[id].isClosed
      requires broker.connectionsById == listed - Ids(dropped)
      ensures Tracked()
    {
      forall c | c in registered ensures KeepsOrder(c) {
        assert WasInOrder(was, c);
        if c.id in listed {
          AfterMessageInOrder(was[c], channel, payload);
        }
      }
      forall c | c in registered && c.id !in listed ensures c.isClosed {
        assert c.View().isClosed == was[c].isClosed;
      }
    }

    /** One new connection was listed. */
    lemma NewTracked(was: map<SseConnection, Connection>, listed: map<nat, SseConnection>, connection: SseConnection)
      requires WereTracked(was, listed, connection.id) && registered == was.Keys + {connection}
      requires forall c | c in was :: c.View() == was[c]
      requires connection.id < broker.nextConnectionId
      requires connection.View() ==
                 NewConnection(connection.eventType, connection.routingKeys, connection.systemIdAllowlist)
      requires broker.connectionsById == listed[connection.id := connection]
      ensures Tracked()
    {
      forall c | c in was ensures c.isClosed == was[c].isClosed && KeepsOrder(c) {
        assert c.View().isClosed == was[c].isClosed && WasInOrder(was, c);
      }
      NewInOrder(connection.View());
      assert KeepsOrder(connection);
    }

    // -------------------------------------------------------------- connections

    method Register(eventType: EventType, routingKeys: set<string>, systemIdAllowlist: Option<set<string>>)
      returns (connection: SseConnection)
      requires Valid()
      modifies this`registered, broker, broker.redisSubscriptions
      ensures Valid() && fresh(connection) && registered == old(registered) + {connection}
      ensures connection.View() == NewConnection(eventType, routingKeys, systemIdAllowlist)
      ensures connection.id !in old(broker.connectionsById)
      ensures broker.Listening() == old(broker.Listening())[connection.id := KeysOf(eventType, routingKeys)]
      ensures broker.redisSubscriptions.View()
           == Subscriptions.Enqueue(old(broker.redisSubscriptions.View()), KeysOf(eventType, routingKeys),
                                    Subscriptions.Increment)
    {
      ghost var listed := broker.connectionsById;
      ghost var was := Remember();
      var id;
      id, connection := broker.Register(eventType, routingKeys, systemIdAllowlist);
      registered := registered + {connection};
      NewTracked(was, listed, connection);
    }

    method CleanupConnection(id: nat)
      requires Valid()
      modifies broker`connectionsById, broker`connectionIdsByChannelKey, broker.redisSubscriptions
      modifies if id in broker.connectionsById then {broker.connectionsById[id]} else {}
      ensures Valid() && broker.connectionsById == old(broker.connectionsById) - {id}
      ensures id in old(broker.connectionsById) ==>
                old(broker.connectionsById)[id].View()
                == Next(old(broker.connectionsById[id].View()), CloseConnection)
      ensures broker.redisSubscriptions.View()
           == AfterCleanup(old(broker.redisSubscriptions.View()), old(broker.Listening()), id,
                           id in old(broker.connectionsById))
    {
      if id !in broker.connectionsById {
        return;
      }
      ghost var listed := broker.connectionsById;
      ghost var was := Remember();
      broker.CleanupConnection(id);
      StepTracked(was, listed, listed[id], CloseConnection);
    }

    /** A heartbeat or another line for one connection. */
    method SendLine(id: nat, line: string) returns (ghost drops: bool)
      requires Valid()
      modifies broker`connectionsById, broker`connectionIdsByChannelKey, broker.redisSubscriptions
      modifies if id in broker.connectionsById then {broker.connectionsById[id]} else {}
      ensures Valid() && broker.connectionsById == old(broker.connectionsById) - (if drops then {id} else {})
      ensures id in old(broker.connectionsById) ==>
                old(broker.connectionsById)[id].View()
                == Next(old(broker.connectionsById[id].View()), Step.SendLine(line))
      ensures drops == (id in old(broker.connectionsById) && old(broker.connectionsById)[id].isClosed)
      ensures id in old(broker.connectionsById) ==>
                DropsOnlyWhenFull(old(broker.connectionsById[id].View()), line + "\n\n", LineFrame(line),
                                  old(broker.connectionsById)[id].View())
      ensures broker.redisSubscriptions.View()
           == AfterCleanup(old(broker.redisSubscriptions.View()), old(broker.Listening()), id, drops)
    {
      drops := false;
      if id !in broker.connectionsById {
        return;
      }
      ghost var listed := broker.connectionsById;
      ghost var was := Remember();
      LineDrops(listed[id], line);
      drops := broker.EnqueueRawFrame(id, LineFrame(line));
      StepTracked(was, listed, listed[id], Step.SendLine(line));
    }

    /** The part of a registration after its await: the two opening frames. */
    method Greet(id: nat) returns (ghost drops: bool)
      requires Valid()
      modifies broker`connectionsById, broker`connectionIdsByChannelKey, broker.redisSubscriptions
      modifies if id in broker.connectionsById then {broker.connectionsById[id]} else {}
      ensures Valid() && broker.connectionsById == old(broker.connectionsById) - (if drops then {id} else {})
      ensures id in old(broker.connectionsById) ==>
                old(broker.connectionsById)[id].View() == Greeted(old(broker.connectionsById[id].View()))
      ensures drops == (id in old(broker.connectionsById) && old(broker.connectionsById)[id].isClosed)
      ensures broker.redisSubscriptions.View()
           == AfterCleanup(old(broker.redisSubscriptions.View()), old(broker.Listening()), id, drops)
    {
      drops := false;
      if id !in broker.connectionsById {
        return;
      }
      GreetedOutcome(broker.connectionsById[id].View());
      ghost var listed := broker.connectionsById;
      drops := SendLine(id, "retry: 2000");
      ghost var dropsLater := SendLine(id, ": connected");
      GoneAtMostOnce(listed, id, drops, dropsLater);
      drops := drops || dropsLater;
    }

    /** A message from Redis for whichever connections it concerns. */
    method OnMessage(channel: string, payload: Option<(string, string)>) returns (ghost dropped: seq<nat>)
      requires Valid()
      modifies broker`connectionsById, broker`connectionIdsByChannelKey, broker.redisSubscriptions
      modifies broker.connectionsById.Values
      ensures Valid() && broker.connectionsById == old(broker.connectionsById) - Ids(dropped)
      ensures forall id | id in old(broker.connectionsById) ::
                old(broker.connectionsById)[id].View() == AfterMessage(old(broker.Views())[id], channel, payload)
      ensures AllServed(old(broker.Views()), old(broker.connectionsById), dropped, channel, payload)
      ensures NoRepeats(dropped) && Ids(dropped) <= old(broker.connectionsById).Keys
      ensures broker.redisSubscriptions.View()
           == CountDown(old(broker.redisSubscriptions.View()), old(broker.Listening()), dropped)
    {
      ghost var listed := broker.connectionsById;
      ghost var was := Remember();
      ListedAreOpen(was);
      ghost var views := broker.Views();
      dropped := broker.OnMessage(channel, payload);
      MessageTracked(was, listed, views, dropped, channel, payload);
      MessageServesAll(was, listed, views, dropped, channel, payload);
    }

    // -------------------------------------------------------------- suspended flush loops

    method OnWritten(connection: SseConnection)
      requires Valid() && connection in registered && connection.awaitingWrite > 0
      modifies connection
      ensures Valid() && connection.View() == Next(old(connection.View()), SettleWrite(true))
    {
      ghost var listed := broker.connectionsById;
      ghost var was := Remember();
      connection.OnWritten();
      StepTracked(was, listed, connection, SettleWrite(true));
    }

    method OnWriteFailed(connection: SseConnection)
      requires Valid() && connection in registered && connection.awaitingWrite > 0
      modifies broker`connectionsById, broker`connectionIdsByChannelKey, broker.redisSubscriptions, connection
      ensures Valid() && broker.connectionsById == old(broker.connectionsById) - {connection.id}
      ensures connection.View() == Next(old(connection.View()), SettleWrite(false))
      ensures broker.redisSubscriptions.View()
           == AfterCleanup(old(broker.redisSubscriptions.View()), old(broker.Listening()), connection.id,
                           connection.id in old(broker.connectionsById))
    {
      ghost var listed := broker.connectionsById;
      ghost var was := Remember();
      broker.OnWriteFailed(connection.id, connection);
      StepTracked(was, listed, connection, SettleWrite(false));
    }

    method OnCleanupSettled(connection: SseConnection)
      requires Valid() && connection in registered && connection.awaitingCleanup > 0
      modifies connection
      ensures Valid() && connection.View() == Next(old(connection.View()), SettleCleanup)
    {
      ghost var listed := broker.connectionsById;
      ghost var was := Remember();
      connection.OnCleanupSettled();
      StepTracked(was, listed, connection, SettleCleanup);
    }

    method OnResponseEnded(connection: SseConnection)
      requires Valid() && connection in registered
      modifies connection`writableEnded
      ensures Valid() && connection.View() == Next(old(connection.View()), EndResponse)
    {
      ghost var listed := broker.connectionsById;
      ghost var was := Remember();
      connection.OnResponseEnded();
      StepTracked(was, listed, connection, EndResponse);
    }
  }
}
