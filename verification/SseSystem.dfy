/** The connections, the broker and the subscription manager as objects beside a Redis connection: every method that
    changes the demand is one step of the protocol in `Subscriptions`, or several for an event that overflows clients,
    so what is proved about runs of the protocol and of the queues holds of the objects. */
module SseSystem {
  import opened Collections
  import opened EventRegistry
  import Queue = ConnectionQueue
  import opened SubscriptionManager
  import opened SseBroker
  import opened SseStreams
  import S = Subscriptions

  function Cleanups(dropped: seq<nat>): seq<S.Event> {
    seq(|dropped|, i requires 0 <= i < |dropped| => S.Cleanup(dropped[i]))
  }

  /** The system without some connections, their demand counted down in turn. */
  function Without(s: S.System, dropped: seq<nat>): S.System {
    s.(manager := CountDown(s.manager, s.connections, dropped), connections := s.connections - Ids(dropped))
  }

  lemma WithoutOneMore(s: S.System, dropped: seq<nat>, id: nat)
    requires id in s.connections && id !in dropped
    ensures S.Enabled(Without(s, dropped), S.Cleanup(id))
    ensures S.Next(Without(s, dropped), S.Cleanup(id)) == Without(s, dropped + [id])
  {
    CountDownOne(s.manager, s.connections, dropped, id);
    assert Ids(dropped + [id]) == Ids(dropped) + {id};
    assert s.connections - Ids(dropped) - {id} == s.connections - (Ids(dropped) + {id});
  }

  lemma CleanupsOneMore(events: seq<S.Event>, front: seq<nat>, id: nat)
    ensures events + Cleanups(front) + [S.Cleanup(id)] == events + Cleanups(front + [id])
  {
    assert Cleanups(front) + [S.Cleanup(id)] == Cleanups(front + [id]);
  }

  /** Dropping connections while an event is routed is cleaning them up one after the other. */
  lemma {:induction false} DroppedIsCleanups(start: S.System, events: seq<S.Event>, s: S.System, dropped: seq<nat>)
    requires S.Run(start, events, s) && NoRepeats(dropped) && Ids(dropped) <= s.connections.Keys
    ensures S.Run(start, events + Cleanups(dropped), Without(s, dropped))
    decreases dropped
  {
    if dropped == [] {
      assert events + Cleanups(dropped) == events;
      assert s.connections - Ids(dropped) == s.connections;
    } else {
      var front, id := dropped[..|dropped| - 1], dropped[|dropped| - 1];
      assert Ids(dropped) == Ids(front) + {id} && front + [id] == dropped;
      DroppedIsCleanups(start, events, s, front);
      WithoutOneMore(s, front, id);
      S.RunOneMore(start, events + Cleanups(front), Without(s, front), S.Cleanup(id));
      CleanupsOneMore(events, front, id);
    }
  }

  class SseSystem {
    const streams: SseStreams
    const broker: Broker := streams.broker
    // the Redis connection, and everything that happened
    ghost var connected: bool
    ghost var held: set<S.Key>
    ghost var rejected: set<S.Key>
    ghost var start: S.System
    ghost var events: seq<S.Event>

    constructor (ghost live: bool)
      ensures Valid() && events == [] && streams.registered == {}
      ensures fresh(streams) && fresh(broker) && fresh(broker.redisSubscriptions)
      ensures View() == S.System(S.NEW_MANAGER, live, {}, {}, map[])
    {
      var manager := new RedisSubscriptionManager();
      streams := new SseStreams(manager);
      connected, held, rejected, events := live, {}, {}, [];
      start := S.System(S.NEW_MANAGER, live, {}, {}, map[]);
    }

    ghost function View(): S.System
      reads this, broker, broker.redisSubscriptions
    {
      S.System(broker.redisSubscriptions.View(), connected, held, rejected, broker.Listening())
    }

    ghost predicate Valid()
      reads this, streams, broker, broker.redisSubscriptions, broker.connectionsById.Values, streams.registered
    {
      streams.Valid() && S.Initial(start) && S.Run(start, events, View())
    }

    /** Nothing but the objects of a step changes, and the step is the given one. */
    ghost method Record(before: S.System, e: S.Event)
      requires S.Run(start, events, before) && S.Enabled(before, e)
      modifies this`events
      ensures events == old(events) + [e] && S.Run(start, events, S.Next(before, e))
    {
      S.RunOneMore(start, events, before, e);
      events := events + [e];
    }

    // -------------------------------------------------------------- the broker

    method Register(eventType: EventType, routingKeys: set<string>, systemIdAllowlist: Option<set<string>>)
      returns (connection: SseConnection)
      requires Valid()
      modifies this`events, streams`registered, broker, broker.redisSubscriptions
      ensures Valid() && connection.id !in old(View()).connections
      ensures View() == S.Next(old(View()), S.Register(connection.id, KeysOf(eventType, routingKeys)))
      ensures fresh(connection) && streams.registered == old(streams.registered) + {connection}
    {
      ghost var before := View();
      connection := streams.Register(eventType, routingKeys, systemIdAllowlist);
      Record(before, S.Register(connection.id, KeysOf(eventType, routingKeys)));
    }

    method CleanupConnection(id: nat)
      requires Valid()
      modifies this`events, broker`connectionsById, broker`connectionIdsByChannelKey, broker.redisSubscriptions
      modifies broker.connectionsById.Values
      ensures Valid()
      ensures View() == if id in old(View()).connections then S.Next(old(View()), S.Cleanup(id)) else old(View())
    {
      ghost var before := View();
      ListeningWithout(broker.connectionsById, {id});
      streams.CleanupConnection(id);
      RecordCleanup(before, id, id in before.connections);
    }

    /** The objects as they are after a cleanup that did or did not happen. */
    ghost method RecordCleanup(before: S.System, id: nat, cleaned: bool)
      requires S.Run(start, events, before) && (cleaned ==> id in before.connections)
      requires streams.Valid() && S.Initial(start)
      requires View() == before.(manager := AfterCleanup(before.manager, before.connections, id, cleaned),
                                 connections := if cleaned then before.connections - {id} else before.connections)
      modifies this`events
      ensures Valid() && View() == if cleaned then S.Next(before, S.Cleanup(id)) else before
    {
      if cleaned {
        Record(before, S.Cleanup(id));
      }
    }

    /** A heartbeat or another line for one connection. */
    method SendLine(id: nat, line: string)
      requires Valid()
      modifies this`events, broker`connectionsById, broker`connectionIdsByChannelKey, broker.redisSubscriptions
      modifies broker.connectionsById.Values
      ensures Valid() && CleanedAtMost(old(View()), id)
    {
      ghost var before := View();
      ghost var connections := broker.connectionsById;
      ghost var drops := streams.SendLine(id, line);
      GoneAtMostOnce(connections, id, drops, false);
      RecordCleanup(before, id, drops);
    }

    method Greet(id: nat)
      requires Valid()
      modifies this`events, broker`connectionsById, broker`connectionIdsByChannelKey, broker.redisSubscriptions
      modifies broker.connectionsById.Values
      ensures Valid() && CleanedAtMost(old(View()), id)
    {
      ghost var before := View();
      ghost var connections := broker.connectionsById;
      ghost var drops := streams.Greet(id);
      GoneAtMostOnce(connections, id, drops, false);
      RecordCleanup(before, id, drops);
    }

    ghost predicate CleanedAtMost(before: S.System, id: nat)
      reads this, broker, broker.redisSubscriptions
    {
      View() == before || (id in before.connections && View() == S.Next(before, S.Cleanup(id)))
    }

    /** A failed write, of a connection that may have been cleaned up meanwhile. */
    method OnWriteFailed(connection: SseConnection)
      requires Valid() && connection in streams.registered && connection.awaitingWrite > 0
      modifies this`events, broker`connectionsById, broker`connectionIdsByChannelKey, broker.redisSubscriptions
      modifies connection
      ensures Valid()
      ensures View() == if connection.id in old(View()).connections
                        then S.Next(old(View()), S.Cleanup(connection.id)) else old(View())
    {
      ghost var before := View();
      ListeningWithout(broker.connectionsById, {connection.id});
      streams.OnWriteFailed(connection);
      RecordCleanup(before, connection.id, connection.id in before.connections);
    }

    // what a flush loop does otherwise does not concern the demand

    method OnWritten(connection: SseConnection)
      requires Valid() && connection in streams.registered && connection.awaitingWrite > 0
      modifies connection
      ensures Valid() && View() == old(View())
    {
      streams.OnWritten(connection);
    }

    method OnCleanupSettled(connection: SseConnection)
      requires Valid() && connection in streams.registered && connection.awaitingCleanup > 0
      modifies connection
      ensures Valid() && View() == old(View())
    {
      streams.OnCleanupSettled(connection);
    }

    method OnResponseEnded(connection: SseConnection)
      requires Valid() && connection in streams.registered
      modifies connection`writableEnded
      ensures Valid() && View() == old(View())
    {
      streams.OnResponseEnded(connection);
    }

    /** A message from Redis: the clients it overflows are cleaned up, one step each. */
    method OnMessage(channel: string, payload: Option<(string, string)>) returns (ghost dropped: seq<nat>)
      requires Valid()
      modifies this`events, broker`connectionsById, broker`connectionIdsByChannelKey, broker.redisSubscriptions
      modifies broker.connectionsById.Values
      ensures Valid() && events == old(events) + Cleanups(dropped) && View() == Without(old(View()), dropped)
    {
      ghost var before := View();
      ghost var connections := broker.connectionsById;
      dropped := streams.OnMessage(channel, payload);
      ListeningWithout(connections, Ids(dropped));
      RecordDropped(before, dropped);
    }

    ghost method RecordDropped(before: S.System, dropped: seq<nat>)
      requires S.Run(start, events, before) && NoRepeats(dropped) && Ids(dropped) <= before.connections.Keys
      requires streams.Valid() && S.Initial(start) && View() == Without(before, dropped)
      modifies this`events
      ensures Valid() && events == old(events) + Cleanups(dropped) && View() == Without(before, dropped)
    {
      DroppedIsCleanups(start, events, before, dropped);
      events := events + Cleanups(dropped);
    }

    // -------------------------------------------------------------- the subscription manager

    method StartNextOperation(k: S.Key)
      requires Valid() && S.Enabled(View(), S.Start(k))
      modifies this`events, broker.redisSubscriptions
      ensures Valid() && View() == S.Next(old(View()), S.Start(k))
    {
      Record(View(), S.Start(k));
      broker.redisSubscriptions.StartNextOperation(k);
    }

    method OnAcknowledged(k: S.Key)
      requires Valid() && S.Enabled(View(), S.Ack(k))
      modifies this`events, this`held, this`rejected, broker.redisSubscriptions
      ensures Valid() && View() == S.Next(old(View()), S.Ack(k))
    {
      Record(View(), S.Ack(k));
      held, rejected := S.Effect(held, k, broker.redisSubscriptions.inFlight[k]), rejected - {k};
      broker.redisSubscriptions.OnAcknowledged(k);
    }

    method OnRejected(k: S.Key, ghost tookEffect: bool)
      requires Valid() && S.Enabled(View(), S.Reject(k, tookEffect))
      modifies this`events, this`held, this`rejected, broker.redisSubscriptions
      ensures Valid() && View() == S.Next(old(View()), S.Reject(k, tookEffect))
    {
      Record(View(), S.Reject(k, tookEffect));
      if connected {
        held := if tookEffect then S.Effect(held, k, broker.redisSubscriptions.inFlight[k]) else held;
        rejected := rejected + {k};
      }
      broker.redisSubscriptions.OnRejected(k);
    }

    method OnRedisClose()
      requires Valid()
      modifies this`events, this`connected, this`held, broker.redisSubscriptions
      ensures Valid() && View() == S.Next(old(View()), S.Close)
    {
      Record(View(), S.Close);
      connected, held := false, {};
      broker.redisSubscriptions.OnRedisClose();
    }

    /** The manager has done its part of a ready, and the connection is live. */
    ghost method RecordReady(before: S.System)
      requires !before.connected && S.Initial(start) && S.Run(start, events, before) && streams.Valid()
      requires View() == before.(manager := S.OnReady(before.manager))
      modifies this`events, this`connected, this`held, this`rejected
      ensures Valid() && View() == S.Next(before, S.Ready)
    {
      Record(before, S.Ready);
      connected, held, rejected := true, {}, {};
    }

    method OnRedisReady()
      requires Valid() && !connected
      modifies this`events, this`connected, this`held, this`rejected, broker.redisSubscriptions
      ensures Valid() && View() == S.Next(old(View()), S.Ready)
    {
      ghost var before := View();
      broker.redisSubscriptions.OnRedisReady();
      RecordReady(before);
    }

    // -------------------------------------------------------------- what holds of the objects

    /** After any sequence of these calls the queue of every connection there has ever been is as `ConnectionQueue`
        promises: within its bounds, written in order and without loss, with one flush loop at most, and with event
        ids that are consecutive. */
    lemma QueuesAgree(connection: SseConnection)
      requires Valid() && connection in streams.registered
      ensures Queue.Faithful(connection.View()) && Queue.ConsecutiveIds(connection.View())
      ensures connection.isClosed <==> connection !in broker.connectionsById.Values
    {
      assert KeepsOrder(connection);
      Queue.WrittenIdsAreConsecutive(connection.View());
    }

    /** After any sequence of these calls: a subscribed key has demand and is held by a live connection; the demand with
        the operations that wait is the size of the key's index set, and no decrement will meet a zero count; a drained
        key whose latest command was not rejected is held exactly if its index set is not empty. */
    lemma ObjectsAgree(k: S.Key)
      requires Valid()
      ensures var manager, indexed := broker.redisSubscriptions.View(), broker.Indexed(k);
              && (manager.StateOf(k) == S.Subscribed ==> connected && k in held && manager.Demand(k) > 0)
              && manager.Demand(k) + S.Net(manager.Pending(k)) == |indexed|
              && (manager.Pending(k) != [] && manager.Pending(k)[0] == S.Decrement ==> manager.Demand(k) > 0)
              && (View().Drained(k) ==> manager.Demand(k) == |indexed| && (k in manager.demandCount <==> indexed != {}))
              && (View().Drained(k) && connected && k !in rejected ==> (k in held <==> indexed != {}))
    {
      S.SubscribedIsHeld(start, events, View(), k);
      S.DemandFollowsListeners(start, events, View(), k);
      broker.IndexIsListeners(View(), k);
      if View().Drained(k) && connected && k !in rejected {
        S.DrainedHoldsExactlyTheDemanded(start, events, View(), k);
      }
    }
  }
}
