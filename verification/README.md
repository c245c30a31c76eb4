# EliteHub event pipeline: models and proofs

The repository ingests Elite Dangerous events into PostgreSQL, whose triggers write change events into an outbox;
a relay publishes them over Redis and a broker fans them out to SSE clients. This project models the parts of that
pipeline that are state machines or algorithms and proves what they are for.

- `Subscriptions`, `SubscriptionManager`: which Redis channels are held while operations, command outcomes, closes
  and reconnects interleave. `SerializedOperations`, `SerializedProtocol`: the chained promises beneath, and that
  every run of the protocol is one of theirs.
- `EventRegistry`, `SseBroker`, `ConnectionQueue`, `SseFraming`: channels and demand keys, routing through an index,
  the write queue of one connection, and the text of the stream. `SseStreams`: the connection objects with their
  flush loops step as the queue does. `SseSystem`: the connection, broker and manager objects run as the protocol
  says.
- `ControlThreat`, `ControlThreatTriggers`: the view of threatened controlling factions, kept by triggers, and the
  change from one refresh per row to one per system.
- `LifecycleEvents`, `LifecycleTriggers`: the event stream about presence, faction states and conflicts, and how a
  consumer rebuilds the tables from it.
- `FactionIngest`: one message about a system's factions, statement by statement, with all these triggers.
- `OutboxRelay`: relays that lock batches, publish, commit, fail and retry.
- `RateLimiter`, `LeaseLimiter`: the Redis scripts that bound requests and open streams.
- `ApiKeyResolver`: three levels of caches in front of the key table.
- `StationMerge`: a station known by market id, by name, or as two rows.
- `FactionsByDistance`: the query that looks at the nearest 5000 systems only.
- `Galaxy`, `Text`, `Collections`: shared identifiers, strings and facts about collections.

Where the source changes state in place there is a class with the same fields and methods. A method's contract ties
its new state to a function on values, and the lemmas about runs are about these functions. Runs are sequences of
steps; a step is a stretch of code between two awaits, or one statement with the triggers it fires.

Assumptions: after a close a new Redis connection holds no channel, and a command in flight at a close is rejected or
completes on the next connection. Postgres executes a statement and its AFTER triggers atomically. A resolution of an
API key is four stages (local cache, two Redis reads, lookup with its cache writes) that interleave with everything
else; one stage, including what it stores, is atomic. Lease scripts run at the time of one clock shared with
Redis; for the rate limiter the two clocks may differ and drift by up to five seconds.

Where documentation and code disagree the model follows the code. `docs/sse.md:228` says that `cleared` is emitted
when the gap rises above 0.10. The code also clears when the controlling faction changes or loses its row, as in the
history of `ControlThreat.ClearedWithoutARise`; `ControlThreat.ClearedWhen` says exactly when it does. A cleared
event carries the gap stored before, which `ControlThreat.ViewFollowsTables` shows is never above 0.10.

Check the project with `dafny verify dfyconfig.toml`.

## Model

| member | source | states |
|---|---|---|
| Subscriptions.SubscribedIsHeld | apps/api/src/realtime/sse/redisSubscriptionManager.ts:209-314 | in every interleaving of registrations, cleanups, command outcomes, closes and readies, a key whose state is `subscribed` has a live connection, its channel is held by Redis on that connection, and its demand is positive |
| Subscriptions.DemandFollowsListeners | apps/api/src/realtime/sse/redisSubscriptionManager.ts:93-119 | in every run the demand of a key plus the operations still waiting for it equals the number of connections listening to it; a decrement that is about to run finds a positive count; once drained the count is that number and no zero entry is left |
| Subscriptions.DrainedHoldsExactlyTheDemanded | apps/api/src/realtime/sse/redisSubscriptionManager.ts:140-207 | with all operations of a key drained on a live connection, and its latest command on it not rejected, Redis holds the channel exactly if some connection listens to it, and exactly if its state is `subscribed` |
| Subscriptions.DrainReachesAgreement | apps/api/src/realtime/sse/redisSubscriptionManager.ts:93-314 | from every reachable state on a live connection, running the waiting operations of a key and acknowledging its commands ends drained; the channel is then held as the listeners want it if and only if the key's latest command was not rejected, or a command is in flight, or a waiting operation will issue one (a condition on state, demand and waiting operations), or the channel is already right |
| Subscriptions.StartOfRejected | apps/api/src/realtime/sse/redisSubscriptionManager.ts:95-118 | after a rejection, starting an operation either issues a command or leaves that condition as it is |
| Subscriptions.DrainWithoutRejection | apps/api/src/realtime/sse/redisSubscriptionManager.ts:191-207 | without a rejected latest command, draining always ends with the channel held exactly if some connection listens |
| Subscriptions.RejectedUnsubscribeLeavesChannelHeld | apps/api/src/realtime/sse/redisSubscriptionManager.ts:288-313 | a run in which a rejected unsubscribe leaves Redis holding a channel that nobody listens to, with nothing waiting and the state idle |
| Subscriptions.RejectedSubscribeLeavesListenerUnserved | apps/api/src/realtime/sse/redisSubscriptionManager.ts:237-259 | a run in which a rejected subscribe leaves a connection listening to a channel that is not held, with nothing waiting to try again |
| Subscriptions.EffectiveRejectionLeavesChannelHeld | apps/api/src/realtime/sse/redisSubscriptionManager.ts:237-281 | a run in which a rejected subscribe took effect, so that channel and listeners agree, and the listener then leaves: the state is idle, no unsubscribe is issued, and Redis keeps holding the channel |
| Subscriptions.RejectionOutcome | apps/api/src/realtime/sse/redisSubscriptionManager.ts:237-313 | what a rejection does, exactly: in every state on a live connection with nothing else waiting for the key, the channel agrees with the listeners afterwards if and only if the command took effect all the same or the channel was already as the command wanted it |
| Subscriptions.DecrementFindsDemand | apps/api/src/realtime/sse/redisSubscriptionManager.ts:106-109 | the early return for a missing count is never taken |
| Subscriptions.NextKeepsInvariant | apps/api/src/realtime/sse/redisSubscriptionManager.ts:93-314 | every step, of whatever key, keeps the counts, states and held channels of all keys in agreement |
| Subscriptions.StartKeepsCounts | apps/api/src/realtime/sse/redisSubscriptionManager.ts:93-119 | starting the next operation of a key moves it from the waiting operations into the demand |
| Subscriptions.ConnectionChangeKeepsStates | apps/api/src/realtime/sse/redisSubscriptionManager.ts:177-189 | a close or a ready keeps the state of every key, also of those with a command in flight, in agreement with the connection |
| Subscriptions.AckKeepsStates | apps/api/src/realtime/sse/redisSubscriptionManager.ts:229-236 | an acknowledged command, together with the code after its await, leaves the state in agreement with what Redis holds |
| Subscriptions.RejectKeepsStates | apps/api/src/realtime/sse/redisSubscriptionManager.ts:288-313 | so does a rejected command, whether or not it took effect |
| SerializedOperations.OperationsRunInCallOrder | apps/api/src/realtime/sse/redisSubscriptionManager.ts:316-333 | through the table of last promises, a call of a key has begun only if every earlier call of that key has settled, and it can begin exactly then |
| SerializedProtocol.ProtocolRunsOnChains | apps/api/src/realtime/sse/redisSubscriptionManager.ts:93-119 | every run of the subscription protocol is a run of the table of last promises in which the calls that wait are the waiting operations, in order, and a call runs exactly while a command is in flight; at its end an operation of a key can start exactly if the table lets some call of that key begin |
| SerializedProtocol.StartIsBegin | apps/api/src/realtime/sse/redisSubscriptionManager.ts:316-333 | in related states the protocol lets an operation start exactly if the promise a waiting call of that key found has settled |
| SerializedProtocol.BeginsTheFirst | apps/api/src/realtime/sse/redisSubscriptionManager.ts:316-333 | the call that may begin holds the oldest waiting operation of its key |
| SerializedProtocol.NextSimulated | apps/api/src/realtime/sse/redisSubscriptionManager.ts:316-333 | every step of the protocol is matched by issuing, beginning or settling calls and leaves the two related |
| SubscriptionManager.RedisSubscriptionManager.IncrementDemand | apps/api/src/realtime/sse/redisSubscriptionManager.ts:93-101 | the manager object does what the protocol step says: one more waiting increment of the key |
| SubscriptionManager.RedisSubscriptionManager.DecrementDemand | apps/api/src/realtime/sse/redisSubscriptionManager.ts:103-119 | the same for a decrement |
| SubscriptionManager.RedisSubscriptionManager.StartNextOperation | apps/api/src/realtime/sse/redisSubscriptionManager.ts:95-118 | the next operation of a key runs up to its first await or its end |
| SubscriptionManager.RedisSubscriptionManager.SubscribeWhenNeeded | apps/api/src/realtime/sse/redisSubscriptionManager.ts:209-229 | no command without demand or when subscribed already; otherwise the state and the command in flight |
| SubscriptionManager.RedisSubscriptionManager.UnsubscribeWhenNeeded | apps/api/src/realtime/sse/redisSubscriptionManager.ts:261-281 | no command while there is demand or nothing to give up; otherwise the state and the command in flight |
| SubscriptionManager.RedisSubscriptionManager.OnAcknowledged | apps/api/src/realtime/sse/redisSubscriptionManager.ts:230-236 | the code after a completed command, including the unsubscribe after a subscribe whose demand went away |
| SubscriptionManager.RedisSubscriptionManager.OnRejected | apps/api/src/realtime/sse/redisSubscriptionManager.ts:237-259 | the code after a failed command |
| SubscriptionManager.RedisSubscriptionManager.OnRedisClose | apps/api/src/realtime/sse/redisSubscriptionManager.ts:177-189 | the loop over all states: subscribed and subscribing ones become idle, others stay |
| SubscriptionManager.RedisSubscriptionManager.OnRedisReady | apps/api/src/realtime/sse/redisSubscriptionManager.ts:140-156 | the loop over all demanded keys, then one reconcile operation for each |
| SubscriptionManager.RedisSubscriptionManager.ReconcileAllSubscriptions | apps/api/src/realtime/sse/redisSubscriptionManager.ts:191-207 | one more waiting operation for each demanded key and none for others |
| EventRegistry.ChannelRoundTrip | apps/api/src/realtime/sse/eventRegistry.ts:93-182 | for every channel text, event type and routing key: decoding gives that type and key exactly if the channel is the one built for them and the key is not empty |
| EventRegistry.ChannelTexts | packages/queue-contracts/src/realtime.ts:1-40 | the four channels as they are on the wire |
| EventRegistry.OnlyOnePrefixFits | apps/api/src/realtime/sse/eventRegistry.ts:112-153 | no channel starts with the prefixes of two event types |
| EventRegistry.FirstMatchIsTheOnlyOne | apps/api/src/realtime/sse/eventRegistry.ts:158-182 | the search that returns the first match returns the only one |
| EventRegistry.DemandKeyRoundTrip | apps/api/src/realtime/sse/redisSubscriptionManager.ts:31-40 | a demand key gives back its event type and routing key, whatever characters the routing key contains |
| EventRegistry.SameKeySameChannel | apps/api/src/realtime/sse/redisSubscriptionManager.ts:31-40 | two demand keys are equal exactly if their channels are, so keys and channels can stand for each other |
| ConnectionQueue.QueueIsFaithful | apps/api/src/realtime/sse/sseBroker.ts:279-385 | in every run of one connection: until the response ends, frames written followed by the queue are the accepted frames in order; the queue stays within 200 frames and 1,048,576 bytes and `queuedBytes` is their sum; at most one flush loop; an open connection with a nonempty queue is being flushed |
| ConnectionQueue.LineDropsOnlyWhenFull | apps/api/src/realtime/sse/sseBroker.ts:279-302 | for every consistent open connection: a line closes it exactly if 200 frames wait already or the waiting bytes and those of the line's text exceed 1,048,576; otherwise exactly this frame is accepted |
| ConnectionQueue.EventDropsOnlyWhenFull | apps/api/src/realtime/sse/sseBroker.ts:205-211 | the same for an event, with its printed text written out; the next event id is taken in either case |
| ConnectionQueue.Utf8LengthIsLeast | apps/api/src/realtime/sse/sseBroker.ts:285 | the byte length of a character is the least number of UTF-8 bytes that can hold its code point |
| Text.DecimalIsTheNumber | apps/api/src/realtime/sse/sseBroker.ts:81-82 | the digits of a printed id stand for that id, without a leading zero |
| ConnectionQueue.EventIdsAreConsecutive | apps/api/src/realtime/sse/sseBroker.ts:205-211 | in every run the event ids of the written frames are 1, 2, 3, ... without a gap |
| ConnectionQueue.SuccessfulWritesDeliverAll | apps/api/src/realtime/sse/sseBroker.ts:304-326 | from every reachable open state, successful writes alone drain the queue and deliver every accepted frame |
| ConnectionQueue.EnqueueKeepsInvariant | apps/api/src/realtime/sse/sseBroker.ts:279-302 | accepting, refusing and dropping a frame each keep the connection consistent |
| ConnectionQueue.FlushKeepsInvariant | apps/api/src/realtime/sse/sseBroker.ts:304-326 | so does each round of the flush loop |
| SseBroker.Broker.Register | apps/api/src/realtime/sse/sseBroker.ts:96-133 | a new connection is listed and indexed under each of its keys, other entries are kept, and one increment waits for each key |
| SseBroker.Broker.CleanupConnection | apps/api/src/realtime/sse/sseBroker.ts:223-268 | the connection is closed, unlisted and removed from every index set, empty sets are dropped, and one decrement waits for each of its keys; a second call does nothing |
| SseBroker.Broker.EnqueueRawFrame | apps/api/src/realtime/sse/sseBroker.ts:279-302 | a frame is queued, or the connection is cleaned up exactly if 200 frames wait or the queued bytes and the text's exceed 1,048,576; then it leaves the map and one decrement waits for each of its keys |
| SseBroker.Broker.OnWriteFailed | apps/api/src/realtime/sse/sseBroker.ts:327-358 | a failed write closes the connection and unlists it, and one decrement waits for each of its keys; if it was cleaned up before, only its flush loop moves on |
| SseBroker.Broker.DeliverTo | apps/api/src/realtime/sse/sseBroker.ts:191-212 | one frame attempt for a connection whose allowlist admits the event |
| SseBroker.Broker.SendEvent | apps/api/src/realtime/sse/sseBroker.ts:205-211 | one attempt takes the next event id; the connection leaves the map, with its decrements, exactly if the frame overflows its queue |
| SseBroker.Broker.RouteEvent | apps/api/src/realtime/sse/sseBroker.ts:177-213 | going through the index set while backpressure removes connections from it has the effect of a scan of all connections by type, key and allowlist: one attempt for each that matches, none for others, and only the overflowing ones are removed |
| SseBroker.Broker.OnMessage | apps/api/src/realtime/sse/redisSubscriptionManager.ts:121-138 | a valid message on the channel of a nonempty key reaches exactly those connections; the overflowing ones leave the map, each once, and one decrement waits for each key of each; an unreadable message or another channel changes nothing |
| SseBroker.Broker.IndexIsListeners | apps/api/src/realtime/sse/sseBroker.ts:118-126 | the index set of a key is the set of listeners in the subscription protocol |
| SseBroker.SseConnection.Push | apps/api/src/realtime/sse/sseBroker.ts:296-301 | the queue grows by the frame and a flush starts unless one is at work |
| SseBroker.SseConnection.OnWritten | apps/api/src/realtime/sse/sseBroker.ts:322-326 | after a successful write the loop ends if the connection was closed meanwhile and goes on with the next frame otherwise |
| SseBroker.SseConnection.FlushQueue | apps/api/src/realtime/sse/sseBroker.ts:304-326 | the flush loop up to its first await |
| SseBroker.SseConnection.OnCleanupSettled | apps/api/src/realtime/sse/sseBroker.ts:355-358 | once the cleanup that a failed flush awaited is done, the loop is over |
| SseStreams.SseStreams.Register | apps/api/src/realtime/sse/sseBroker.ts:96-133 | a new connection joins those with queues in order; listing and demand as for the broker |
| SseStreams.SseStreams.CleanupConnection | apps/api/src/realtime/sse/sseBroker.ts:223-268 | one closing step of the connection's queue, and of no other |
| SseStreams.SseStreams.SendLine | apps/api/src/realtime/sse/sseBroker.ts:279-302 | one step of the queue; the connection leaves the map, with its decrements, exactly if 200 frames wait or the waiting bytes and those of the line exceed 1,048,576 |
| SseStreams.SseStreams.Greet | apps/api/src/realtime/sse/sseBroker.ts:158-159 | a connection that is still open after the await gets the two opening frames; if one of them overflows its queue it is unlisted and one decrement waits for each of its keys, once |
| SseStreams.SseStreams.OnMessage | apps/api/src/realtime/sse/redisSubscriptionManager.ts:121-138 | a valid message about a type and key serves exactly the connections of that type that listen to the key and whose allowlist, if any, has the system: each takes its next event id and accepts the printed event, or is dropped exactly if 200 frames wait or the bytes would exceed 1,048,576; all queues stay in order |
| SseStreams.SseStreams.OnWritten | apps/api/src/realtime/sse/sseBroker.ts:322-326 | the flush loop of any connection, also of one closed meanwhile, goes on after a successful write |
| SseStreams.SseStreams.OnWriteFailed | apps/api/src/realtime/sse/sseBroker.ts:327-355 | after a failed write the connection is cleaned up if it still is listed |
| SseStreams.SseStreams.OnCleanupSettled | apps/api/src/realtime/sse/sseBroker.ts:355-358 | and the loop ends |
| SseStreams.SseStreams.StepTracked | apps/api/src/realtime/sse/sseBroker.ts:304-385 | a step of one connection's queue keeps all queues in order and the open connections the listed ones |
| SseSystem.SseSystem.ObjectsAgree | apps/api/src/realtime/sse/redisSubscriptionManager.ts:93-314 | after any sequence of calls on the broker and manager objects, in every interleaving: a subscribed key has demand and a held channel; demand plus waiting operations is the size of the key's index set; no decrement meets a zero count; a drained key whose latest command was not rejected is held exactly if its index set is not empty |
| SseSystem.SseSystem.QueuesAgree | apps/api/src/realtime/sse/sseBroker.ts:279-385 | after any sequence of calls on the objects, for every connection there has ever been: the queue is within 200 frames and 1,048,576 bytes with its bytes counted exactly, frames are written in order and without loss until the response ends, at most one flush loop runs, the written event ids are 1, 2, 3, ...; a connection is open exactly if it is listed |
| SseSystem.SseSystem.OnWritten | apps/api/src/realtime/sse/sseBroker.ts:322-326 | a successful write changes no demand and keeps everything in agreement |
| SseSystem.SseSystem.OnCleanupSettled | apps/api/src/realtime/sse/sseBroker.ts:355-358 | neither does the end of a failed flush loop |
| SseSystem.SseSystem.Register | apps/api/src/realtime/sse/sseBroker.ts:96-133 | registering with the objects is one registration step of the protocol |
| SseSystem.SseSystem.CleanupConnection | apps/api/src/realtime/sse/sseBroker.ts:223-268 | cleaning up is one cleanup step, or none for a connection that is gone |
| SseSystem.SseSystem.SendLine | apps/api/src/realtime/sse/sseBroker.ts:279-302 | a line for one connection is at most one cleanup step |
| SseSystem.SseSystem.Greet | apps/api/src/realtime/sse/sseBroker.ts:158-159 | the two opening frames are together at most one cleanup step |
| SseSystem.SseSystem.OnWriteFailed | apps/api/src/realtime/sse/sseBroker.ts:327-355 | a failed write, of any connection there has been, is one cleanup step, or none if the connection was cleaned up before |
| SseSystem.SseSystem.OnMessage | apps/api/src/realtime/sse/redisSubscriptionManager.ts:121-138 | routing a message is one cleanup step for each connection it overflows, in the order in which they are dropped |
| SseSystem.DroppedIsCleanups | apps/api/src/realtime/sse/sseBroker.ts:186-212 | dropping connections one after the other is a run of the protocol |
| SseSystem.SseSystem.StartNextOperation | apps/api/src/realtime/sse/redisSubscriptionManager.ts:95-118 | starting an operation on the manager object is one start step, enabled as in the protocol |
| SseSystem.SseSystem.OnAcknowledged | apps/api/src/realtime/sse/redisSubscriptionManager.ts:229-236 | an acknowledgement is one step of the manager together with the Redis connection |
| SseSystem.SseSystem.OnRejected | apps/api/src/realtime/sse/redisSubscriptionManager.ts:237-259 | so is a rejection, whether or not the command took effect |
| SseSystem.SseSystem.OnRedisClose | apps/api/src/realtime/sse/redisSubscriptionManager.ts:177-189 | so is a close |
| SseSystem.SseSystem.OnRedisReady | apps/api/src/realtime/sse/redisSubscriptionManager.ts:140-156 | so is a ready |
| SseFraming.RoundTrip | apps/api/src/scripts/debugSse.ts:247-291 | printing any list of well-formed frames and reading the text back in any chunks gives the same ids, event names and data, with nothing left in the buffer |
| SseFraming.PrintedApart | apps/api/src/realtime/sse/sseBroker.ts:81-82 | two lists of events print as the same text exactly if they are the same list, ids included |
| SseFraming.ReadStream | apps/api/src/scripts/debugSse.ts:247-291 | the loops that grow and cut the buffer chunk by chunk equal splitting the whole text once at its leftmost blank lines, and the buffer they leave holds no complete frame |
| SseFraming.PiecesAreTheText | apps/api/src/scripts/debugSse.ts:256-290 | cutting loses nothing: the pieces with the blank lines between them are the text, and no piece holds a blank line |
| SseFraming.CutFrames | apps/api/src/scripts/debugSse.ts:258-290 | the inner loop cuts off every complete frame and keeps the rest |
| SseFraming.SplitAppend | apps/api/src/scripts/debugSse.ts:256-290 | splitting a longer text is splitting its start and then what was left with the rest |
| SseFraming.ParseSseFrame | apps/api/src/scripts/debugSse.ts:147-181 | the line loop equals the recursive parser |
| SseFraming.ParsedFrameHolds | apps/api/src/scripts/debugSse.ts:147-181 | for any lines: the id and event are those of the last such line, the data are the values of the data lines joined by newlines (empty ones at the start are lost), and the comments are the lines that start with a colon, in order; other lines change nothing |
| SseFraming.LineIsFieldAndValue | apps/api/src/scripts/debugSse.ts:160-163 | a line is its field up to the first colon, at most one space, and its value |
| Text.TrimmedIs | apps/api/src/scripts/debugSse.ts:156 | a comment is its text without the white space at both ends, and nothing else is taken away |
| SseFraming.OpeningFramesSeen | apps/api/src/realtime/sse/sseBroker.ts:158-159 | the two opening frames are read as nothing and as the comment `connected` |
| Text.LinesAreTheText | apps/api/src/scripts/debugSse.ts:150 | the lines of a frame hold no newline and give the text back when joined |
| SseFraming.SplitSerialized | apps/api/src/realtime/sse/sseBroker.ts:81-82 | the printed frames are exactly what the split finds |
| SseFraming.FrameEndsAtItsBlankLine | apps/api/src/realtime/sse/sseBroker.ts:81-82 | the first blank line of a printed frame is its end, whatever follows |
| ControlThreat.ViewFollowsTables | packages/db/drizzle/20260404111412_groovy_mantis.sql:294-440 | after every history of statements: a threat is shown exactly if some challenger comes within 0.10 of the controlling faction now; the stored row is a recomputation; a threatened row names both factions and the gap; per system the events alternate, starting with entered, and the last is entered exactly while threatened; no event, not even a cleared one, lacks a value or carries a gap above the threshold |
| ControlThreat.EventsNameTheRightFactions | packages/db/drizzle/20260404111412_groovy_mantis.sql:294-422 | over every history of statements from empty tables, for every system and told from the tables alone: a statement announces `entered` exactly if it brings a challenger within 0.10, naming the controlling faction, its first challenger and the gap as they are after it; it announces `cleared` exactly if it ends that, naming the two and the gap as they were before it; otherwise nothing; the stored row names the controlling faction, its first challenger and the gap |
| ControlThreat.RefreshNames | packages/db/drizzle/20260404111412_groovy_mantis.sql:345-412 | one refresh of any tables: `entered` names the controlling faction of now, the challenger that no other faction outranks and their gap; `cleared` names the faction, challenger and gap of the row stored before |
| ControlThreat.StatementTells | packages/db/drizzle/20260404111412_groovy_mantis.sql:426-440 | each statement with its triggers announces what the change of the tables calls for |
| ControlThreat.RankIsSortOrder | packages/db/drizzle/20260404111412_groovy_mantis.sql:328-334 | the order of challengers, ties included, is the lexicographic one of influence, updatedAt and createdAt descending and id ascending |
| ControlThreat.ClearedWhen | packages/db/drizzle/20260404111412_groovy_mantis.sql:382-412 | a refresh announces `cleared` exactly if the system was threatened and no challenger comes within 0.10 of its controlling faction any more, whatever the reason; the event carries the gap stored before, if there was one |
| ControlThreat.ClearedWithoutARise | packages/db/drizzle/20260404111412_groovy_mantis.sql:382-412 | a history in which no influence changes once the threat is shown, with a gap of 0.05, and a change of the controlling faction alone clears it; the cleared event still carries 0.05 |
| ControlThreat.ThreatenedMeansWithinThreshold | packages/db/drizzle/20260404111412_groovy_mantis.sql:318-343 | taking the first challenger of the order decides whether any challenger is within the threshold |
| ControlThreat.TopExists | packages/db/drizzle/20260404111412_groovy_mantis.sql:328-334 | the order always has a first row |
| ControlThreat.RefreshAllSeenBySystem | packages/db/drizzle/20260404111412_groovy_mantis.sql:294-422 | any number of refresh calls does to one system what one call does, or nothing if it is not among them |
| ControlThreat.ScheduleDoesNotMatter | packages/db/drizzle/20260405173442_optimize_faction_state_refresh.sql:47-86 | two call sequences that name the same systems, with whatever repetitions and order, end with the same threat rows and the same events of each system |
| ControlThreat.EventsStayInOrder | packages/db/drizzle/20260404111412_groovy_mantis.sql:345-412 | one refresh keeps a system's events alternating and complete |
| ControlThreat.ExecuteMaintains | packages/db/drizzle/20260404111412_groovy_mantis.sql:426-440 | every statement with the triggers it fires keeps the view right for every system |
| ControlThreatTriggers.OptimisationPreservesMeaning | packages/db/drizzle/20260405173442_optimize_faction_state_refresh.sql:1-116 | for every statement, one refresh per changed row and one per distinct affected system, in any order, end with the same tables and the same events of each system |
| ControlThreatTriggers.ThreatTables.RefreshSystem | packages/db/drizzle/20260404111412_groovy_mantis.sql:294-422 | the procedure, branch by branch, writes the recomputed row and the event of the change, of which `RefreshNames` says whom it names |
| ControlThreatTriggers.ThreatTables.FirstChallenger | packages/db/drizzle/20260404111412_groovy_mantis.sql:327-335 | the first row of another faction by influence, updatedAt, createdAt and id |
| ControlThreatTriggers.ThreatTables.RefreshAffected | packages/db/drizzle/20260405173442_optimize_faction_state_refresh.sql:47-86 | the loop calls the refresh exactly once for each affected system |
| ControlThreatTriggers.ThreatTables.RefreshPerRow | packages/db/drizzle/20260404111412_groovy_mantis.sql:150-195 | the trigger it replaced calls it once for each row |
| ControlThreatTriggers.ThreatTables.WriteFactionStates | packages/db/drizzle/20260405173442_optimize_faction_state_refresh.sql:98-116 | a statement on the faction states with the statement-level trigger |
| ControlThreatTriggers.ThreatTables.WriteFactionStatesPerRow | packages/db/drizzle/20260404111412_groovy_mantis.sql:192-195 | the same statement with the row-level trigger |
| ControlThreatTriggers.ThreatTables.UpsertFactionStates | packages/db/drizzle/20260405173442_optimize_faction_state_refresh.sql:98-109 | an upsert, which fires the insert and the update trigger, amounts to one statement |
| ControlThreatTriggers.ThreatTables.UpdateController | packages/db/drizzle/20260404111412_groovy_mantis.sql:426-440 | an update of the controlling faction refreshes the system exactly if the value changes |
| LifecycleEvents.EventsRebuildTables | packages/db/drizzle/20260404111412_groovy_mantis.sql:16-59 | folding the emitted events over any history of row changes gives the presence table, and for each faction and system the union of pending and active states |
| LifecycleEvents.EventsTellStatesApart | packages/db/drizzle/20260404122801_fix_faction_state_trigger.sql:1-86 | the fold gives the two sets separately, at every point of a history, exactly if no row of that key ever listed a state as both pending and active |
| LifecycleEvents.EventsRebuildConflicts | packages/db/drizzle/20260404111412_groovy_mantis.sql:228-291 | over every history the fold knows, at every point, a conflict as pending exactly if a row with its factions, system and type has status pending, as active exactly if one has status active, and not at all exactly if all are concluded, if and only if every change was harmless: the changed row gives up no conflict that another row has open, and takes none that is open with another status; keys that stay unique are enough |
| LifecycleEvents.OpponentsMakeKeysUnique | packages/db/drizzle/20251228172431_pretty_blackheart.sql:1 | the unique constraint of the table ensures that if every conflict has an opponent |
| LifecycleEvents.MissingOpponentsConfuseConsumers | packages/db/drizzle/20260404111412_groovy_mantis.sql:213-222 | without opponents the constraint does not: a history after which an open conflict is missing from the fold |
| LifecycleEvents.LifecycleIsLearned | packages/db/drizzle/20260404122801_fix_faction_state_trigger.sql:15-84 | the three loops of one row change teach a consumer the difference |
| LifecycleEvents.UnionRebuilds | packages/db/drizzle/20260404122801_fix_faction_state_trigger.sql:1-86 | the union of states follows over a history |
| LifecycleEvents.ConflictsFollow | packages/db/drizzle/20260404111412_groovy_mantis.sql:253-278 | after a change of one row the fold agrees with the table exactly if the change was harmless |
| LifecycleEvents.HarmlessIsExact | packages/db/drizzle/20260404111412_groovy_mantis.sql:228-278 | replaying the events of one row change keeps the agreement exactly if the change is harmless, which can be told before it is made |
| LifecycleEvents.MatchIsByStatus | packages/db/drizzle/20260404111412_groovy_mantis.sql:239-251 | following the rows' lifecycles is knowing each conflict by the status of its rows |
| LifecycleEvents.ConflictEventsSay | packages/db/drizzle/20260404111412_groovy_mantis.sql:253-278 | the change of a conflict row ends what was pending or active and announces what is, as pending or active by its status, exactly if its type, opponent or status differs or it was or is concluded or absent |
| LifecycleEvents.StateEventsSay | packages/db/drizzle/20260404122801_fix_faction_state_trigger.sql:1-86 | a state is announced as pending or active exactly if the row lists it so now and did not before, and as ended exactly if it was listed and no longer is; each once, pending before active before ended |
| LifecycleEvents.PresenceEventsSay | packages/db/drizzle/20260404111412_groovy_mantis.sql:16-59 | a faction is announced as present exactly if it was absent and is present now, and the reverse |
| LifecycleEvents.AcceptedIsUnique | apps/eddn-worker/src/mq/queues/eddn/helpers/factionHelpers.ts:274-283 | histories that the unique constraint accepts and whose rows all name an opponent keep the keys unique throughout |
| LifecycleTriggers.LifecycleTables.EmitStateLifecycle | packages/db/drizzle/20260404122801_fix_faction_state_trigger.sql:1-86 | the loops write one event for each new pending, each new active and each ended state, in this order of kinds |
| LifecycleTriggers.LifecycleTables.Announce | packages/db/drizzle/20260404122801_fix_faction_state_trigger.sql:15-34 | one loop over a set difference |
| LifecycleTriggers.LifecycleTables.EmitConflictLifecycle | packages/db/drizzle/20260404111412_groovy_mantis.sql:228-278 | the events of one conflict row change |
| LifecycleTriggers.LifecycleTables.InsertPresence | packages/db/drizzle/20260404111412_groovy_mantis.sql:51-54 | inserting the missing ones of some presence rows is a history of row changes |
| LifecycleTriggers.LifecycleTables.DeletePresence | packages/db/drizzle/20260404111412_groovy_mantis.sql:56-59 | so is deleting some |
| LifecycleTriggers.LifecycleTables.PutStateRows | packages/db/drizzle/20260405173442_optimize_faction_state_refresh.sql:92-95 | so is writing state rows |
| LifecycleTriggers.LifecycleTables.DeleteStateRows | packages/db/drizzle/20260405173442_optimize_faction_state_refresh.sql:33-41 | so is deleting them |
| LifecycleTriggers.LifecycleTables.PutConflictRow | packages/db/drizzle/20260404111412_groovy_mantis.sql:288-291 | so is writing a conflict row, and writing the same row again emits nothing |
| LifecycleTriggers.LifecycleTables.DeleteConflictRows | packages/db/drizzle/20260404111412_groovy_mantis.sql:288-291 | so is deleting conflict rows, which the constraint always accepts |
| FactionIngest.Worker.Process | apps/eddn-worker/src/mq/queues/eddn/helpers/factionHelpers.ts:334-354 | from every consistent state a message with factions is rejected exactly if a statement would meet a row twice; otherwise the system's presence and state rows, with their times, and the lists behind the state events are the message's entries, its conflict rows are the entries between known factions field by field, its controller follows and no other system's changes, other systems are untouched, both trigger histories continue, the conflict rows within the unique constraint and with opponents; from a right threat view the system shows a threat exactly if the controlling faction is one entry of the message and another entry's influence is within 0.10 of it; and a message whose content is there already writes no event |
| FactionIngest.ProcessAll | apps/eddn-worker/src/mq/queues/eddn/helpers/factionHelpers.ts:334-354 | any sequence of messages from empty tables, whichever are rejected: folding the outbox gives the presence table, each faction's pending or active states and, at every point of the history, the conflicts by status; the threat view is right for every system and every statement announced what it should; and for each system the rows, lists, conflicts, controller and threat are what its latest accepted message says |
| FactionIngest.AcceptableExactly | apps/eddn-worker/src/mq/queues/eddn/helpers/factionHelpers.ts:334-354 | a message is accepted exactly if no faction is named twice and no two conflicts to be stored are between the same two factions in the same order |
| FactionIngest.ContestFollows | apps/eddn-worker/src/mq/queues/eddn/helpers/factionHelpers.ts:158-182 | the controlling faction has a challenger within 0.10 in the table exactly if it has one in the message |
| FactionIngest.Worker.UpsertFactions | apps/eddn-worker/src/mq/queues/eddn/helpers/factionHelpers.ts:36-66 | every named faction has an identifier, earlier ones keep theirs |
| FactionIngest.Worker.UpsertSystemFactions | apps/eddn-worker/src/mq/queues/eddn/helpers/factionHelpers.ts:83-102 | the system's presence rows become the given factions and no others |
| FactionIngest.Worker.CleanupFactionStates | apps/eddn-worker/src/mq/queues/eddn/helpers/factionHelpers.ts:107-121 | exactly the system's state rows of other factions go |
| FactionIngest.Worker.SyncController | apps/eddn-worker/src/mq/queues/eddn/helpers/factionHelpers.ts:123-139 | the controlling faction becomes the one named, if it is among the message's factions |
| FactionIngest.Worker.UpsertFactionStates | apps/eddn-worker/src/mq/queues/eddn/helpers/factionHelpers.ts:150-200 | missing rows are inserted, rows with different content are updated, equal ones are left alone |
| FactionIngest.Worker.UpsertConflicts | apps/eddn-worker/src/mq/queues/eddn/helpers/factionHelpers.ts:242-329 | the system's conflict rows become the message's conflicts between known factions; conflicts of other systems stay |
| FactionIngest.Worker.UpsertConflict | apps/eddn-worker/src/mq/queues/eddn/helpers/factionHelpers.ts:295-318 | a conflict goes to the row of its system, faction and opponent or to a new one |
| FactionIngest.RowsAreExactly | apps/eddn-worker/src/mq/queues/eddn/helpers/factionHelpers.ts:83-200 | presence and state rows cover the same factions with the message's content exactly if presence, cleanup and upsert each did their part |
| FactionIngest.UpsertTimes | apps/eddn-worker/src/mq/queues/eddn/helpers/factionHelpers.ts:174-199 | a row keeps its creation time and is touched exactly if it is new or its content differs |
| FactionIngest.NothingToWrite | apps/eddn-worker/src/mq/queues/eddn/helpers/factionHelpers.ts:187-199 | if the rows are there already, no statement writes one |
| FactionIngest.LeftAreWanted | apps/eddn-worker/src/mq/queues/eddn/helpers/factionHelpers.ts:320-328 | deleting the rows that were not written leaves exactly the wanted conflicts |
| RateLimiter.EveryWindowIsBounded | apps/api/src/auth/apiRateLimiter.ts:61-84 | in every run, with clocks that do not go back and whose distance varies by at most the 5 seconds between window and key lifetime, every window (a, a + 60000], wherever it starts, holds at most `limit` allowed requests |
| RateLimiter.DecidesLikeTheFullLog | apps/api/src/auth/apiRateLimiter.ts:71-81 | a request is allowed exactly if a log of all allowed requests has fewer than `limit` in the trailing window, so it is refused only with `limit` of them |
| RateLimiter.KeptIsTheWindow | apps/api/src/auth/apiRateLimiter.ts:31-33 | neither purge nor key expiry drops a request that is still in the window |
| RateLimiter.RetryAfterIsExact | apps/api/src/auth/apiRateLimiter.ts:86-106 | after a refusal `Retry-After` is between 1 and 60, and a retry n seconds later, with no other request between, is allowed exactly if n is at least that |
| RateLimiter.HeadersAreExact | apps/api/src/auth/apiRateLimiter.ts:86-106 | the headers of every answer, accepted or refused: the limit itself; `remaining` plus the requests of the minute is the limit; `reset` is the first whole second at which the oldest of them is a minute old; `Retry-After` only after a refusal |
| RateLimiter.SlidingWindow.Eval | apps/api/src/auth/apiRateLimiter.ts:61-84 | the script on the sorted set |
| RateLimiter.SlidingWindow.Consume | apps/api/src/auth/apiRateLimiter.ts:149-188 | the decision and headers; when no answer arrives the script may or may not have run |
| RateLimiter.SlidingWindow.OldestScore | apps/api/src/auth/apiRateLimiter.ts:73-74 | the smallest score, if there is one |
| LeaseLimiter.LimitHolds | apps/api/src/realtime/sse/connectionLimiter.ts:20-66 | in every run a key never holds more than the maximum, a stream is admitted exactly while fewer unexpired leases were granted, the number reported is the exact one, and a refresh succeeds exactly for an unexpired lease |
| LeaseLimiter.RefreshNeverRevives | apps/api/src/realtime/sse/connectionLimiter.ts:39-55 | a refresh adds no lease, changes no other and does not bring an ended one back |
| LeaseLimiter.RefreshedLeaseSurvives | apps/api/src/realtime/sse/connectionLimiter.ts:116-130 | a lease refreshed at gaps under 90 seconds is there, whatever other leases do, until it is released or cleared, and ends 90 seconds after its last refresh |
| LeaseLimiter.AdmittedStreamIsCounted | apps/api/src/realtime/sse/connectionLimiter.ts:20-55 | an admitted stream's lease can be refreshed exactly until 90 seconds after its admission or last refresh in time, whatever other streams do |
| LeaseLimiter.KeptIsGranted | apps/api/src/realtime/sse/connectionLimiter.ts:15-16 | the expiry of the key never drops an unexpired lease |
| LeaseLimiter.LeaseKey.TryOpen | apps/api/src/realtime/sse/connectionLimiter.ts:20-37 | the acquire script |
| LeaseLimiter.LeaseKey.RefreshLease | apps/api/src/realtime/sse/connectionLimiter.ts:39-55 | the refresh script |
| LeaseLimiter.LeaseKey.ReleaseLease | apps/api/src/realtime/sse/connectionLimiter.ts:57-66 | the release script, which deletes an empty key |
| LeaseLimiter.ActiveConnections.OnOpen | apps/api/src/realtime/sse/connectionLimiter.ts:149-153 | the key's count and the total grow by one; the total stays the sum of positive counts |
| LeaseLimiter.ActiveConnections.OnClose | apps/api/src/realtime/sse/connectionLimiter.ts:155-169 | both shrink by one, or nothing happens for a key without streams |
| OutboxRelay.NoRowIsLost | apps/api/src/realtime/eventOutboxRelay.ts:61-130 | in every run of any number of relays with errors, crashes, lost replies and retries: a row is in the committed outbox or settled, never both; the attempt that settled it published, in order, one target for each power of a powerplay row's system, or one for the faction of any other row, or discarded it because it could not be read or there was no power; no two relays hold the same row |
| OutboxRelay.WithoutFailuresExactlyOnce | apps/api/src/realtime/eventOutboxRelay.ts:203-211 | if no attempt failed, every target of a settled row was published exactly once by anyone, and nothing about a row that no relay has taken |
| OutboxRelay.BatchesPublishOldestFirst | apps/api/src/realtime/eventOutboxRelay.ts:95-107 | the publications of one batch follow the age of their rows |
| OutboxRelay.TargetsReachTheirKeys | apps/api/src/realtime/eventOutboxRelay.ts:132-201 | a row that cannot be read is discarded; a powerplay row has as many targets as its system has powers, the i-th under the i-th power's key, and is discarded if there are none; any other row has one target under its faction's key; each target has the row's type, payload and time and a channel that decodes to the type and key |
| OutboxRelay.NextKeepsInvariant | apps/api/src/realtime/eventOutboxRelay.ts:61-130 | every step of every relay keeps rows conserved, batches apart and publications accounted for |
| OutboxRelay.NextIsYounger | apps/api/src/realtime/eventOutboxRelay.ts:87-89 | what an attempt publishes next is about a row no older than those it published about before |
| OutboxRelay.EventOutboxRelay.Drain | apps/api/src/realtime/eventOutboxRelay.ts:61-78 | with one relay, nothing failing and nothing arriving, the loop empties an outbox of n rows in ceil(n / 100) batches, as a run of the system without failures |
| OutboxRelay.EventOutboxRelay.ProcessBatch | apps/api/src/realtime/eventOutboxRelay.ts:80-93 | one transaction is a run of the system: it settles the oldest 100 rows or all, or on a failure leaves the table as it was |
| OutboxRelay.EventOutboxRelay.ProcessRow | apps/api/src/realtime/eventOutboxRelay.ts:109-130 | one row is prepared, published and deleted, or left with some targets out |
| OutboxRelay.EventOutboxRelay.FetchBatch | apps/api/src/realtime/eventOutboxRelay.ts:95-107 | the batch is the oldest rows that nobody holds, at most 100 |
| OutboxRelay.EventOutboxRelay.PublishTargets | apps/api/src/realtime/eventOutboxRelay.ts:203-207 | targets go out in order up to the first failure |
| OutboxRelay.EventOutboxRelay.PrepareRowForPublishing | apps/api/src/realtime/eventOutboxRelay.ts:132-166 | classification as one step of the system, with the targets that the row and the powers call for |
| FactionsByDistance.ListedFactionsAreExact | apps/api/src/postgraphile/plugins/FactionsByDistancePlugin.ts:42-77 | for all tables, with distances written out in coordinates: a faction is listed exactly if fewer than 5000 systems come before its nearest one, and then with that system (ties by system id) and its distance; every faction left out is at least as far; an unknown reference lists nothing |
| FactionsByDistance.LimitedAgreesWithExact | apps/api/src/postgraphile/plugins/FactionsByDistancePlugin.ts:57-62 | for every limit the listed factions agree with the query over all systems, and a faction is left out exactly if its nearest system is not among the ranked ones |
| FactionsByDistance.LeftOutIsFarther | apps/api/src/postgraphile/plugins/FactionsByDistancePlugin.ts:57-62 | for every limit a faction left out is at least as far as every one listed |
| FactionsByDistance.ListedIfNearEnough | apps/api/src/postgraphile/plugins/FactionsByDistancePlugin.ts:57-62 | for every limit a faction is listed exactly if fewer systems than that come before its nearest one |
| FactionsByDistance.UnlimitedIsExact | apps/api/src/postgraphile/plugins/FactionsByDistancePlugin.ts:64-76 | over all systems the query lists exactly the factions present somewhere, each with its nearest |
| FactionsByDistance.RankedOrders | apps/api/src/postgraphile/plugins/FactionsByDistancePlugin.ts:57-61 | the ranking holds every system once, by distance and then id |
| StationMerge.MergedIdentity | apps/eddn-worker/src/mq/queues/eddn/helpers/stationHelpers.ts:226-299 | from every table with both unique constraints: afterwards they hold again, exactly one row has the name in the system and it has the market id given; at most one row was deleted, one that held that market id; every other row is as before |
| StationMerge.GivenColumnsAreStored | apps/eddn-worker/src/mq/queues/eddn/helpers/stationHelpers.ts:202-219 | the surviving row, found by name first and by market id second, stores every column the message gives and keeps the others |
| StationMerge.MergeTwice | apps/eddn-worker/src/mq/queues/eddn/helpers/stationHelpers.ts:226-299 | the same message again writes the same row, but for its time |
| StationMerge.ServicesStayInStep | apps/eddn-worker/src/mq/queues/eddn/helpers/stationServices.ts:158-215 | incoming services are stored cleaned together with those of the catalogue, although they are cleaned twice; without any, stored ones stay and missing catalogue services are filled in |
| StationMerge.SupportedAreKept | apps/eddn-worker/src/mq/queues/eddn/helpers/stationServices.ts:57-75 | the supported services are those of the catalogue, as often as given and in the order given |
| StationMerge.NonBlankAreKept | apps/eddn-worker/src/mq/queues/eddn/helpers/stationServices.ts:52-55 | the normalised services are the cleaned ones that are not blank, in the order given |
| StationMerge.CleanServiceIs | apps/eddn-worker/src/mq/queues/eddn/helpers/stationServices.ts:45-55 | a cleaned service is the text between the white space around it, character by character in lower case |
| StationMerge.LowerCharIs | apps/eddn-worker/src/mq/queues/eddn/helpers/stationServices.ts:45-55 | each capital letter becomes its small one and no other character changes |
| StationMerge.UpdateIsUnique | apps/eddn-worker/src/mq/queues/eddn/helpers/stationHelpers.ts:239-268 | once the other holder of the market id is gone, the update cannot violate a constraint |
| StationMerge.StationTable.UpsertRegularStation | apps/eddn-worker/src/mq/queues/eddn/helpers/stationHelpers.ts:226-299 | the branches, statement by statement, each accepted by the database, amount to one merge |
| StationMerge.StationTable.UpsertStation | apps/eddn-worker/src/mq/queues/eddn/helpers/stationHelpers.ts:154-180 | the same with the services prepared first |
| StationMerge.StationTable.UpdateStationById | apps/eddn-worker/src/mq/queues/eddn/helpers/stationHelpers.ts:202-215 | only given columns change; the constraints must hold after the statement |
| StationMerge.NormalizeTwice | apps/eddn-worker/src/mq/queues/eddn/helpers/stationServices.ts:52-55 | cleaning service names twice is cleaning them once |
| ApiKeyResolver.UnchangedRowIsAnsweredDirectly | apps/api/src/auth/apiKeyResolver.ts:103-173 | while a key's row is unchanged from the start, every answer of a stage is `service_unavailable` exactly if its call failed and otherwise that of the row: its consumer if it is active and the secret is right, and invalid if not; whatever was cached, evicted, corrupted or failed before and however the stages of resolutions in any number of processes interleave; a whole resolution is unavailable only if a call failed |
| ApiKeyResolver.ChangeIsSeenInTime | apps/api/src/auth/apiKeyResolver.ts:36-38 | after any change of the row, answers are direct again more than 330 seconds after the last event before the change, in every interleaving of stages |
| ApiKeyResolver.DeactivatedKeyIsRefused | apps/api/src/auth/apiKeyResolver.ts:36-38 | a key deactivated or deleted at T, with everything before the change earlier than T, is never accepted at or after T + 330 seconds, whatever later changes of its row leave it inactive or absent |
| ApiKeyResolver.BoundIsReached | apps/api/src/auth/apiKeyResolver.ts:36-38 | the bound is tight: looked up in the millisecond of its deactivation, a key can be accepted exactly 330 seconds later |
| ApiKeyResolver.LocallyCachedKeyIsRefused | apps/api/src/auth/apiKeyResolver.ts:36-38 | a deactivated key that Redis does not hold is refused more than 30 seconds after the last event before the change |
| ApiKeyResolver.LocalBoundIsReached | apps/api/src/auth/apiKeyResolver.ts:36-38 | the 30 seconds are tight |
| ApiKeyResolver.NewKeyIsSeenInTime | apps/api/src/auth/apiKeyResolver.ts:36-38 | a key absent or inactive from the start is answered directly more than 45 seconds after the last event before it was created or activated |
| ApiKeyResolver.MarkBoundIsReached | apps/api/src/auth/apiKeyResolver.ts:36-38 | the 45 seconds are tight: looked up in the millisecond of its creation, a key can be unknown exactly 45 seconds later |
| ApiKeyResolver.StageAgrees | apps/api/src/auth/apiKeyResolver.ts:103-173 | one stage of a resolution puts nothing in a cache that disagrees with the row longer than what it found |
| ApiKeyResolver.Resolver.ResolveKey | apps/api/src/auth/apiKeyResolver.ts:103-173 | the method, with every failing call, does for the presented key what its stages do one after the other and leaves other keys alone |

## Left out

- Floating point: influences and gaps are reals, distances are compared by their squares; rounding is not modelled.
- Text: names are taken as already normalised (the columns are citext); cleaning service names takes all the white space that ECMAScript names, and letters of ASCII alone when it lowers the case; frames are texts, so the bytes of a chunk that TextDecoder holds back are not modelled, and the byte length of a frame is a function of its text.
- JSON, schema checks, HMAC and the timing-safe comparison: JSON is lossless, checks are a valid or invalid payload, hashes are compared as texts.
- `RedisSubscriptionManager.stop` and `closeAllConnections`: stopping clears the operation chains, so serialization is claimed before it only.
- Resubscription by the Redis client library: not visible in the repository.
- The error path of `registerConnection`: the operations it awaits catch their own errors.
- `SseBroker.Broker.RouteEvent`: the order in which an index set is visited is left open, because the source promises none across connections.
- Heartbeats, metrics, logging and the release of a lease when a stream closes.
- Order of events of different kinds in one outbox: each family is a sequence of its own, in emission order.
- Deleting systems or factions with their cascades, and updates that move a state row to another system or faction.
- Columns that no trigger and no branch looks at: stakes and won days of conflicts, government, happiness; they are part of an opaque content or left out.
- `LifecycleEvents.EventsTellStatesApart`: concerns the two sets of states; the recovering states have no events.
- Mapping of state, conflict and station names from the message format.
- `OutboxRelay.EventOutboxRelay.ProcessBatch`: the powers of a system are read once per batch in this method; the steps of `OutboxRelay` read them for every row.
- Snapshot effects of READ COMMITTED in the relay's fetch: a batch is taken in one step.
- The relay's delays between batches and its error flag: they change no table.
- `ApiKeyResolver.ChangeIsSeenInTime`: assumes that what a stage stores is stored at the time it read; a write delayed after its read would lengthen the bound by its delay.
- The anonymous and malformed cases of a presented key are outcomes of parsing, which is not modelled.
- Stronghold carriers, which take another path than regular stations, and the excluded station governments.
- The connection wrapper around the distance query (ordering and paging of its rows).
- Configuration, HTTP, ZeroMQ, queues, GraphQL schema and other wiring.
