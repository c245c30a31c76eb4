/** The subscription manager as the object it is: fields updated in place, each method proved to do what the
    value-level protocol of `Subscriptions` says. */
module SubscriptionManager {
  import opened Subscriptions

  class RedisSubscriptionManager {
    var demandCount: map<Key, nat>
    var subscriptionState: map<Key, SubscriptionState>
    var pending: map<Key, seq<Operation>>
    var inFlight: map<Key, Command>
    var redisDisconnected: bool

    constructor ()
      ensures View() == NEW_MANAGER
    {
      demandCount, subscriptionState, pending, inFlight := map[], map[], map[], map[];
      redisDisconnected := false;
    }

    function View(): Manager
      reads this
    {
      Manager(demandCount, subscriptionState, pending, inFlight, redisDisconnected)
    }

    method IncrementDemand(k: Key)
      modifies this
      ensures View() == Enqueue(old(View()), {k}, Increment)
    {
      RunSerialized(k, Increment);
    }

    method DecrementDemand(k: Key)
      modifies this
      ensures View() == Enqueue(old(View()), {k}, Decrement)
    {
      RunSerialized(k, Decrement);
    }

    method RunSerialized(k: Key, op: Operation)
      modifies this`pending
      ensures View() == Enqueue(old(View()), {k}, op)
    {
      pending := pending[k := View().Pending(k) + [op]];
    }

    /** The next waiting operation of `k` runs up to its first await or to its end. */
    method StartNextOperation(k: Key)
      requires View().Pending(k) != [] && k !in inFlight
      modifies this
      ensures View() == StartNext(old(View()), k)
    {
      var op := pending[k][0];
      pending := pending[k := pending[k][1..]];
      match op
      case Increment =>
        var current := View().Demand(k);
        demandCount := demandCount[k := current + 1];
        SubscribeWhenNeeded(k);
      case Decrement =>
        var current := View().Demand(k);
        if current <= 0 {
          return;
        }
        if current - 1 == 0 {
          demandCount := demandCount - {k};
          UnsubscribeWhenNeeded(k);
        } else {
          demandCount := demandCount[k := current - 1];
        }
      case Reconcile =>
        SubscribeWhenNeeded(k);
    }

    method SubscribeWhenNeeded(k: Key)
      modifies this`subscriptionState, this`inFlight
      ensures View() == SubscribeIfNeeded(old(View()), k)
    {
      if View().Demand(k) <= 0 {
        return;
      }
      var state := View().StateOf(k);
      if state == Subscribed || state == Subscribing {
        return;
      }
      subscriptionState := subscriptionState[k := Subscribing];
      inFlight := inFlight[k := SubscribeCommand];
    }

    method UnsubscribeWhenNeeded(k: Key)
      modifies this`subscriptionState, this`inFlight
      ensures View() == UnsubscribeIfNeeded(old(View()), k)
    {
      if View().Demand(k) > 0 {
        return;
      }
      var state := View().StateOf(k);
      if state == Idle || state == Unsubscribing {
        return;
      }
      subscriptionState := subscriptionState[k := Unsubscribing];
      inFlight := inFlight[k := UnsubscribeCommand];
    }

    /** The awaited command of `k` succeeded. */
    method OnAcknowledged(k: Key)
      requires k in inFlight
      modifies this`subscriptionState, this`inFlight
      ensures View() == Acknowledged(old(View()), k)
    {
      var command := inFlight[k];
      inFlight := inFlight - {k};
      match command
      case SubscribeCommand =>
        subscriptionState := subscriptionState[k := Subscribed];
        if View().Demand(k) <= 0 {
          UnsubscribeWhenNeeded(k);
        }
      case UnsubscribeCommand =>
        subscriptionState := subscriptionState[k := if View().Demand(k) <= 0 then Idle else Subscribed];
    }

    /** The awaited command of `k` failed. */
    method OnRejected(k: Key)
      requires k in inFlight
      modifies this`subscriptionState, this`inFlight
      ensures View() == Rejected(old(View()), k)
    {
      var command := inFlight[k];
      inFlight := inFlight - {k};
      match command
      case SubscribeCommand =>
        subscriptionState := subscriptionState[k := Idle];
      case UnsubscribeCommand =>
        subscriptionState := subscriptionState[k := if View().Demand(k) > 0 then Subscribed else Idle];
    }

    method OnRedisClose()
      modifies this`subscriptionState, this`redisDisconnected
      ensures View() == OnClose(old(View()))
    {
      redisDisconnected := true;
      var todo := subscriptionState.Keys;
      while todo != {}
        invariant redisDisconnected && subscriptionState.Keys == old(subscriptionState).Keys
                  && todo <= subscriptionState.Keys
        invariant forall k | k in subscriptionState ::
                    subscriptionState[k] ==
                      if k in todo then old(subscriptionState)[k] else AfterClose(old(subscriptionState)[k])
        decreases todo
      {
        var k :| k in todo;
        var state := subscriptionState[k];
        if state == Subscribed || state == Subscribing {
          subscriptionState := subscriptionState[k := Idle];
        }
        todo := todo - {k};
      }
    }

    method OnRedisReady()
      modifies this`subscriptionState, this`redisDisconnected, this`pending
      ensures View() == OnReady(old(View()))
    {
      var todo := demandCount.Keys;
      while todo != {}
        modifies this`subscriptionState
        invariant todo <= demandCount.Keys
        invariant subscriptionState == old(subscriptionState) + AllIdle(demandCount.Keys - todo)
        decreases todo
      {
        var k :| k in todo;
        subscriptionState := subscriptionState[k := Idle];
        todo := todo - {k};
      }
      assert demandCount.Keys - todo == demandCount.Keys;
      redisDisconnected := false;
      ReconcileAllSubscriptions();
    }

    method ReconcileAllSubscriptions()
      modifies this`pending
      ensures View() == Enqueue(old(View()), demandCount.Keys, Reconcile)
    {
      var todo := demandCount.Keys;
      while todo != {}
        invariant todo <= demandCount.Keys
        invariant View() == Enqueue(old(View()), demandCount.Keys - todo, Reconcile)
        decreases todo
      {
        var k :| k in todo;
        EnqueueOneMore(old(View()), demandCount.Keys - todo, k, Reconcile);
        RunSerialized(k, Reconcile);
        assert demandCount.Keys - (todo - {k}) == demandCount.Keys - todo + {k};
        todo := todo - {k};
      }
    }
  }
}
