/** The bounded write queue of one SSE connection and the loop that flushes it.

    One function is one stretch of code between two awaits. `awaitingWrite` and `awaitingCleanup` count the
    flush loops suspended at their two awaits, so that "at most one loop" is proved and not built in. */
module ConnectionQueue {
  import opened Collections
  import opened EventRegistry
  import opened SseFraming
  import opened Text

  const MAX_QUEUE_MESSAGES := 200
  const MAX_QUEUE_BYTES := 1_048_576

  /** Bytes of a character in UTF-8 (RFC 3629, section 3). */
  function Utf8Length(c: char): nat {
    var code := c as int;
    if code < 0x80 then 1 else if code < 0x800 then 2 else if code < 0x10000 then 3 else 4
  }

  /** How many code points fit into that many bytes: 7 bits in one byte, 5n + 1 bits in n bytes. */
  function Capacity(bytes: nat): nat { if bytes == 0 then 0 else if bytes == 1 then Power(7) else Power(5 * bytes + 1) }

  function Power(bits: nat): nat { if bits == 0 then 1 else 2 * Power(bits - 1) }

  lemma Utf8LengthIsLeast(c: char)
    ensures 1 <= Utf8Length(c) <= 4
    ensures c as int < Capacity(Utf8Length(c))
    ensures Utf8Length(c) == 1 || c as int >= Capacity(Utf8Length(c) - 1)
  {
    assert Power(7) == 0x80 && Power(11) == 0x800 && Power(16) == 0x10000 && Power(21) == 0x20_0000;
  }

  function ByteLength(s: string): nat {
    if s == "" then 0 else Utf8Length(s[0]) + ByteLength(s[1..])
  }

  function FrameBytes(f: Frame): nat { ByteLength(Serialize(f)) }

  function QueueBytes(queue: seq<Frame>): nat {
    if queue == [] then 0 else FrameBytes(queue[0]) + QueueBytes(queue[1..])
  }

  datatype Connection = Connection(
    eventType: EventType,
    routingKeys: set<string>,
    systemIdAllowlist: Option<set<string>>,
    queue: seq<Frame>,
    queuedBytes: int,
    isFlushing: bool,
    isClosed: bool,
    nextEventId: nat,
    // the response's writableEnded
    ended: bool,
    awaitingWrite: nat,
    awaitingCleanup: nat,
    // history: the frames put into the queue and the frames handed to the response
    accepted: seq<Frame>,
    written: seq<Frame>)

  function NewConnection(eventType: EventType, routingKeys: set<string>,
                         systemIdAllowlist: Option<set<string>>): Connection
  {
    Connection(eventType, routingKeys, systemIdAllowlist, [], 0, false, false, 1, false, 0, 0, [], [])
  }

  predicate Overflows(c: Connection, f: Frame) {
    |c.queue| + 1 > MAX_QUEUE_MESSAGES || c.queuedBytes + FrameBytes(f) > MAX_QUEUE_BYTES
  }

  function Cleanup(c: Connection): Connection {
    if c.isClosed then c else c.(isClosed := true, queue := [], queuedBytes := 0, ended := true)
  }

  function Enqueue(c: Connection, f: Frame): Connection {
    if c.isClosed then c
    else if Overflows(c, f) then Cleanup(c)
    else if c.isFlushing then Pushed(c, f)
    else StartFlush(Pushed(c, f))
  }

  function Pushed(c: Connection, f: Frame): Connection {
    c.(queue := c.queue + [f], queuedBytes := c.queuedBytes + FrameBytes(f), accepted := c.accepted + [f])
  }

  function StartFlush(c: Connection): Connection {
    if c.isClosed || c.isFlushing then c else FlushOn(c.(isFlushing := true))
  }

  /** The loop of the flush from its test to its next await or its end. A frame's text is never empty. */
  function FlushOn(c: Connection): Connection {
    if c.queue == [] then c.(isFlushing := false)
    else
      var f := c.queue[0];
      WriteFrame(c.(queue := c.queue[1..], queuedBytes := c.queuedBytes - FrameBytes(f)), f)
  }

  function WriteFrame(c: Connection, f: Frame): Connection {
    var written := if c.isClosed || c.ended then c.written else c.written + [f];
    c.(written := written, awaitingWrite := c.awaitingWrite + 1)
  }

  function WriteSettled(c: Connection, ok: bool): Connection
    requires c.awaitingWrite > 0
  {
    var resumed := c.(awaitingWrite := c.awaitingWrite - 1);
    if !ok then Cleanup(resumed).(awaitingCleanup := c.awaitingCleanup + 1)
    else if c.isClosed then resumed.(isFlushing := false)
    else FlushOn(resumed)
  }

  function CleanupSettled(c: Connection): Connection
    requires c.awaitingCleanup > 0
  {
    c.(awaitingCleanup := c.awaitingCleanup - 1, isFlushing := false)
  }

  /** One attempt to send an event: the next event id is taken, whether or not the frame is then accepted. */
  function Attempt(c: Connection, data: string): Connection {
    Enqueue(c.(nextEventId := c.nextEventId + 1), EventFrame(c.nextEventId, Name(c.eventType), data))
  }

  datatype Step =
    | SendLine(line: string)
    | SendEvent(data: string)
    | SettleWrite(ok: bool)
    | SettleCleanup
    | CloseConnection
    | EndResponse

  predicate Enabled(c: Connection, step: Step) {
    match step
    case SettleWrite(_) => c.awaitingWrite > 0
    case SettleCleanup => c.awaitingCleanup > 0
    case SendEvent(_) => !c.isClosed
    case _ => true
  }

  function Next(c: Connection, step: Step): Connection
    requires Enabled(c, step)
  {
    match step
    case SendLine(line) => Enqueue(c, LineFrame(line))
    case SendEvent(data) => Attempt(c, data)
    case SettleWrite(ok) => WriteSettled(c, ok)
    case SettleCleanup => CleanupSettled(c)
    case CloseConnection => Cleanup(c)
    case EndResponse => c.(ended := true)
  }

  predicate Run(c: Connection, steps: seq<Step>, last: Connection)
    decreases steps
  {
    if steps == [] then c == last
    else Enabled(c, steps[0]) && Run(Next(c, steps[0]), steps[1..], last)
  }

  // ---------------------------------------------------------------- invariants

  function EventIds(frames: seq<Frame>): seq<nat> {
    if frames == [] then []
    else
      var last := frames[|frames| - 1];
      EventIds(frames[..|frames| - 1]) + if last.EventFrame? then [last.id] else []
  }

  /** 1, 2, 3, ... without a gap */
  predicate Consecutive(ids: seq<nat>) { forall i: nat | i < |ids| :: ids[i] == i + 1 }

  predicate WithinLimits(c: Connection) {
    && c.queuedBytes == QueueBytes(c.queue)
    && |c.queue| <= MAX_QUEUE_MESSAGES && c.queuedBytes <= MAX_QUEUE_BYTES
  }

  predicate OneFlushLoop(c: Connection) {
    && c.awaitingWrite + c.awaitingCleanup == (if c.isFlushing then 1 else 0)
    && (!c.isClosed ==> c.awaitingCleanup == 0)
    && (!c.isClosed && c.queue != [] ==> c.awaitingWrite == 1)
    && (c.isClosed ==> c.queue == [])
  }

  predicate InOrder(c: Connection) {
    && c.written <= c.accepted
    && (!c.isClosed && !c.ended ==> c.written + c.queue == c.accepted)
    && (c.isClosed ==> c.ended)
  }

  predicate Numbered(c: Connection) {
    && c.nextEventId >= 1
    && Consecutive(EventIds(c.accepted))
    && (!c.isClosed ==> |EventIds(c.accepted)| == c.nextEventId - 1)
  }

  predicate Invariant(c: Connection) {
    WithinLimits(c) && OneFlushLoop(c) && InOrder(c) && Numbered(c)
  }

  lemma {:induction false} QueueBytesAppend(queue: seq<Frame>, f: Frame)
    ensures QueueBytes(queue + [f]) == QueueBytes(queue) + FrameBytes(f)
  {
    if queue == [] {
      assert queue + [f] == [f] && [f][1..] == [];
    } else {
      QueueBytesAppend(queue[1..], f);
      assert (queue + [f])[1..] == queue[1..] + [f];
    }
  }

  lemma EventIdsAppend(frames: seq<Frame>, f: Frame)
    ensures EventIds(frames + [f]) == EventIds(frames) + if f.EventFrame? then [f.id] else []
  {
    assert (frames + [f])[..|frames|] == frames;
  }

  lemma {:induction false} EventIdsPrefix(a: seq<Frame>, b: seq<Frame>)
    requires a <= b
    ensures EventIds(a) <= EventIds(b)
  {
    if |a| < |b| {
      var front := b[..|b| - 1];
      assert a <= front;
      EventIdsPrefix(a, front);
    } else {
      assert a == b;
    }
  }

  lemma FlushKeepsInvariant(c: Connection)
    requires !c.isClosed && c.isFlushing && c.awaitingWrite == 0 && c.awaitingCleanup == 0
    requires WithinLimits(c) && InOrder(c) && Numbered(c)
    ensures Invariant(FlushOn(c))
  {
    if c.queue != [] {
      assert c.queue == [c.queue[0]] + c.queue[1..];
      assert c.written + [c.queue[0]] + c.queue[1..] == c.written + c.queue;
    }
  }

  lemma PushedInOrder(c: Connection, f: Frame)
    requires WithinLimits(c) && InOrder(c) && !c.isClosed && !Overflows(c, f)
    ensures WithinLimits(Pushed(c, f)) && InOrder(Pushed(c, f))
  {
    QueueBytesAppend(c.queue, f);
    Associative(c.written, c.queue, [f]);
  }

  predicate FitsNumbering(c: Connection, f: Frame) {
    && c.nextEventId >= 1 && Consecutive(EventIds(c.accepted))
    && if f.EventFrame? then !c.isClosed && f.id == c.nextEventId - 1 && |EventIds(c.accepted)| == c.nextEventId - 2
       else !c.isClosed ==> |EventIds(c.accepted)| == c.nextEventId - 1
  }

  lemma PushedNumbered(c: Connection, f: Frame)
    requires FitsNumbering(c, f) && !c.isClosed
    ensures Numbered(Pushed(c, f))
  {
    EventIdsAppend(c.accepted, f);
  }

  lemma AcceptedKeepsInvariant(c: Connection, f: Frame)
    requires WithinLimits(c) && OneFlushLoop(c) && InOrder(c) && FitsNumbering(c, f)
    requires !c.isClosed && !Overflows(c, f)
    ensures Invariant(Enqueue(c, f))
  {
    PushedInOrder(c, f);
    PushedNumbered(c, f);
    if c.isFlushing {
      PushedWhileFlushing(c, f);
    } else {
      StartedFlushKeepsInvariant(Pushed(c, f));
    }
  }

  lemma PushedWhileFlushing(c: Connection, f: Frame)
    requires OneFlushLoop(c) && c.isFlushing && !c.isClosed && !Overflows(c, f)
    ensures Enqueue(c, f) == Pushed(c, f) && OneFlushLoop(Pushed(c, f))
  {
  }

  lemma StartedFlushKeepsInvariant(c: Connection)
    requires !c.isClosed && !c.isFlushing && c.awaitingWrite == 0 && c.awaitingCleanup == 0
    requires WithinLimits(c) && InOrder(c) && Numbered(c)
    ensures Invariant(StartFlush(c))
  {
    FlushKeepsInvariant(c.(isFlushing := true));
  }

  lemma EnqueueKeepsInvariant(c: Connection, f: Frame)
    requires WithinLimits(c) && OneFlushLoop(c) && InOrder(c) && FitsNumbering(c, f)
    ensures Invariant(Enqueue(c, f))
  {
    if !c.isClosed && !Overflows(c, f) {
      AcceptedKeepsInvariant(c, f);
    }
  }

  lemma NextKeepsInvariant(c: Connection, step: Step)
    requires Invariant(c) && Enabled(c, step)
    ensures Invariant(Next(c, step))
  {
    match step
    case SendLine(line) => EnqueueKeepsInvariant(c, LineFrame(line));
    case SendEvent(data) =>
      EnqueueKeepsInvariant(c.(nextEventId := c.nextEventId + 1), EventFrame(c.nextEventId, Name(c.eventType), data));
    case SettleWrite(ok) =>
      if ok && !c.isClosed {
        FlushKeepsInvariant(c.(awaitingWrite := c.awaitingWrite - 1));
      }
    case _ =>
  }

  lemma NewInOrder(c: Connection)
    requires c == NewConnection(c.eventType, c.routingKeys, c.systemIdAllowlist)
    ensures Invariant(c)
  {
  }

  lemma {:induction false} RunKeepsInvariant(c: Connection, steps: seq<Step>, last: Connection)
    requires Invariant(c) && Run(c, steps, last)
    ensures Invariant(last)
    decreases steps
  {
    if steps != [] {
      NextKeepsInvariant(c, steps[0]);
      RunKeepsInvariant(Next(c, steps[0]), steps[1..], last);
    }
  }

  // ---------------------------------------------------------------- main results

  /** The frames written are the first ones accepted, and until the response ends the queue holds the rest; it stays
      within both limits with its bytes counted exactly; a nonempty queue of an open connection has exactly one flush
      loop at work, and there are never two. */
  predicate Faithful(c: Connection) {
    && (!c.isClosed && !c.ended ==> c.written + c.queue == c.accepted)
    && c.written <= c.accepted
    && c.queuedBytes == QueueBytes(c.queue) <= 1_048_576 && |c.queue| <= 200
    && c.awaitingWrite + c.awaitingCleanup <= 1
    && (!c.isClosed && c.queue != [] ==> c.isFlushing && c.awaitingWrite == 1)
  }

  /** The event ids a client got are 1, 2, 3 with no gap, and an open connection has accepted every id it took. */
  predicate ConsecutiveIds(c: Connection) {
    && Consecutive(EventIds(c.written))
    && (!c.isClosed ==> |EventIds(c.accepted)| == c.nextEventId - 1)
  }

  /** An open connection is closed for a frame exactly if 200 frames wait already, or the bytes that wait and those of
      the frame are more than a mebibyte. Otherwise the frame is accepted, and it alone. */
  predicate DropsOnlyWhenFull(c: Connection, text: string, f: Frame, after: Connection) {
    && (after.isClosed <==> |c.queue| == 200 || QueueBytes(c.queue) + ByteLength(text) > 1_048_576)
    && after.accepted == if after.isClosed then c.accepted else c.accepted + [f]
  }

  lemma LineDropsOnlyWhenFull(c: Connection, line: string)
    requires Invariant(c) && !c.isClosed
    ensures DropsOnlyWhenFull(c, line + "\n\n", LineFrame(line), Next(c, SendLine(line)))
  {
  }

  lemma EventDropsOnlyWhenFull(c: Connection, data: string)
    requires Invariant(c) && !c.isClosed
    ensures var text := "id: " + Decimal(c.nextEventId) + "\nevent: " + Name(c.eventType) + "\ndata: " + data + "\n\n";
            DropsOnlyWhenFull(c, text, EventFrame(c.nextEventId, Name(c.eventType), data), Next(c, SendEvent(data)))
    ensures Next(c, SendEvent(data)).nextEventId == c.nextEventId + 1
  {
    EventText(c.nextEventId, Name(c.eventType), data);
  }

  lemma EventText(id: nat, eventType: string, data: string)
    ensures Serialize(EventFrame(id, eventType, data)) ==
            "id: " + Decimal(id) + "\nevent: " + eventType + "\ndata: " + data + "\n\n"
  {
    var a, b, c := "id: " + Decimal(id), "event: " + eventType, "data: " + data;
    assert Body(EventFrame(id, eventType, data)) == a + "\n" + (b + "\n" + c);
    assert "\n" + "event: " == "\nevent: " && "\n" + "data: " == "\ndata: ";
    assert a + "\n" + (b + "\n" + c) == a + "\nevent: " + eventType + "\ndata: " + data;
  }

  lemma WrittenIdsAreConsecutive(c: Connection)
    requires Invariant(c)
    ensures ConsecutiveIds(c)
  {
    EventIdsPrefix(c.written, c.accepted);
    var ids := EventIds(c.accepted);
    assert forall i: nat | i < |EventIds(c.written)| :: EventIds(c.written)[i] == ids[i];
  }

  lemma QueueIsFaithful(c: Connection, steps: seq<Step>, last: Connection)
    requires c == NewConnection(c.eventType, c.routingKeys, c.systemIdAllowlist) && Run(c, steps, last)
    ensures Faithful(last)
  {
    RunKeepsInvariant(c, steps, last);
  }

  lemma EventIdsAreConsecutive(c: Connection, steps: seq<Step>, last: Connection)
    requires c == NewConnection(c.eventType, c.routingKeys, c.systemIdAllowlist) && Run(c, steps, last)
    ensures ConsecutiveIds(last)
  {
    RunKeepsInvariant(c, steps, last);
    WrittenIdsAreConsecutive(last);
  }

  /** An undisturbed client gets everything: from any reachable open connection whose response has not ended, as
      many successful writes as frames are queued, plus one, empty the queue and hand over what was accepted. */
  lemma {:induction false} SuccessfulWritesDeliverAll(c: Connection) returns (steps: seq<Step>, last: Connection)
    requires Invariant(c) && !c.isClosed && !c.ended
    ensures Run(c, steps, last) && forall step | step in steps :: step == SettleWrite(true)
    ensures last.written == c.accepted && last.queue == [] && !last.isFlushing
    decreases |c.queue|, c.awaitingWrite
  {
    if c.awaitingWrite == 0 {
      steps, last := [], c;
    } else {
      NextKeepsInvariant(c, SettleWrite(true));
      var rest;
      rest, last := SuccessfulWritesDeliverAll(Next(c, SettleWrite(true)));
      steps := [SettleWrite(true)] + rest;
      assert steps[1..] == rest;
    }
  }
}
