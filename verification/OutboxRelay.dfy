/** Publishing the rows of the outbox: any number of relays take locked batches, publish row by row, and commit or
    roll back. */
module OutboxRelay {
  import opened Collections
  import opened EventRegistry

  type RowId = nat
  type RelayId = nat
  type PowerId = string

  // a payload that passed the checks of its event type; `scope` is the faction, or the system of a powerplay event
  datatype Payload = Payload(scope: string, content: string)

  // an unknown event type and an invalid payload are both None
  datatype Row = Row(eventType: Option<EventType>, payload: Option<Payload>, createdAt: int)

  datatype Target = Target(channel: string, eventType: EventType, routingKey: string, payload: Payload, createdAt: int)

  datatype Handling = Publish(targets: seq<Target>) | Discard
  {
    function Targets(): seq<Target> { if Publish? then targets else [] }
  }

  // the powers of each system, read anew for every row
  type Powers = map<string, seq<PowerId>>

  const BATCH_SIZE := 100

  // -------------------------------------------------------------- one row

  function MakeTarget(t: EventType, routingKey: string, payload: Payload, createdAt: int): Target {
    Target(ChannelOf(t, routingKey), t, routingKey, payload, createdAt)
  }

  function PowersOf(powers: Powers, system: string): seq<PowerId> { if system in powers then powers[system] else [] }

  /** The keys under which the row is published; none if there is nobody to tell. */
  function RoutingKeys(t: EventType, payload: Payload, powers: Powers): seq<string> {
    if t == SystemPowerplayUpdated then PowersOf(powers, payload.scope) else [payload.scope]
  }

  function Prepare(row: Row, powers: Powers): Handling {
    if row.eventType == None || row.payload == None then Discard
    else
      var t, payload := row.eventType.value, row.payload.value;
      var keys := RoutingKeys(t, payload, powers);
      if keys == [] then Discard
      else Publish(seq(|keys|, i requires 0 <= i < |keys| => MakeTarget(t, keys[i], payload, row.createdAt)))
  }

  /** The row's payload and time under one routing key, on a channel that decodes to the row's type and that key. */
  predicate IsTarget(target: Target, row: Row, routingKey: string)
    requires row.eventType.Some? && row.payload.Some?
  {
    && target.eventType == row.eventType.value && target.routingKey == routingKey
    && target.payload == row.payload.value && target.createdAt == row.createdAt
    && (routingKey != "" ==> FindByChannel(target.channel) == Some(Match(row.eventType.value, routingKey)))
  }

  /** Whom a row is for. One that cannot be read is discarded. A powerplay row goes to each power of its system, in
      order, and is discarded if there is none; every other row goes to its faction. */
  predicate Reaches(row: Row, powers: Powers, handling: Handling) {
    if row.eventType.None? || row.payload.None? then handling == Discard
    else if row.eventType.value != SystemPowerplayUpdated then
      handling.Publish? && |handling.targets| == 1 && IsTarget(handling.targets[0], row, row.payload.value.scope)
    else
      var system := row.payload.value.scope;
      if system !in powers || powers[system] == [] then handling == Discard
      else
        && handling.Publish? && |handling.targets| == |powers[system]|
        && forall i | 0 <= i < |powers[system]| :: IsTarget(handling.targets[i], row, powers[system][i])
  }

  lemma TargetsReachTheirKeys(row: Row, powers: Powers)
    ensures Reaches(row, powers, Prepare(row, powers))
  {
    if Prepare(row, powers).Publish? {
      var keys := RoutingKeys(row.eventType.value, row.payload.value, powers);
      forall i | 0 <= i < |keys| ensures IsTarget(Prepare(row, powers).targets[i], row, keys[i]) {
        ChannelRoundTrip(ChannelOf(row.eventType.value, keys[i]), row.eventType.value, keys[i]);
      }
    }
  }

  // -------------------------------------------------------------- the system

  datatype Publication = Publication(attempt: nat, row: RowId, target: Target)

  // the row being published and how many of its targets are out
  datatype Current = Current(all: seq<Target>, sent: nat)

  // an open transaction; `done` says how the first rows of the batch were handled
  datatype Attempt = Attempt(number: nat, batch: seq<RowId>, done: seq<Handling>, current: Option<Current>)

  datatype Settlement = Settlement(attempt: nat, handling: Handling)

  // `outbox` is the committed table, `inserted` every row it ever had, `settled` how the others left it
  datatype State = State(outbox: map<RowId, Row>, relays: map<RelayId, Attempt>, published: seq<Publication>,
                         attempts: nat, inserted: map<RowId, Row>, settled: map<RowId, Settlement>)

  const EMPTY := State(map[], map[], [], 0, map[], map[])

  datatype Step =
    | Insert(id: RowId, row: Row)
    | Begin(relay: RelayId, batch: seq<RowId>)
    | PrepareRow(relay: RelayId, powers: Powers)
    | PublishTarget(relay: RelayId)
    | Fail(relay: RelayId, sent: bool) // an error or a crash; a failing publish may have gone out
    | Commit(relay: RelayId)

  predicate Locked(s: State, id: RowId) { exists r :: r in s.relays && id in s.relays[r].batch }

  predicate Distinct(batch: seq<RowId>) { forall i, j | 0 <= i < j < |batch| :: batch[i] != batch[j] }

  predicate OldestFirst(outbox: map<RowId, Row>, batch: seq<RowId>) {
    && (forall i | 0 <= i < |batch| :: batch[i] in outbox)
    && forall i, j | 0 <= i < j < |batch| :: outbox[batch[i]].createdAt <= outbox[batch[j]].createdAt
  }

  /** ORDER BY "createdAt" LIMIT 100 FOR UPDATE SKIP LOCKED: the oldest rows nobody holds, in some order of equals. */
  predicate IsFetch(s: State, batch: seq<RowId>) {
    && |batch| <= 100 && Distinct(batch) && OldestFirst(s.outbox, batch)
    && (forall i | 0 <= i < |batch| :: !Locked(s, batch[i]))
    && (forall id | id in s.outbox && !Locked(s, id) && id !in batch ::
          |batch| == 100
            && forall i | 0 <= i < |batch| :: s.outbox[batch[i]].createdAt <= s.outbox[id].createdAt)
  }

  predicate Possible(s: State, step: Step) {
    match step
    case Insert(id, _) => id !in s.inserted
    case Begin(r, batch) => r !in s.relays && IsFetch(s, batch)
    case PrepareRow(r, _) =>
      r in s.relays && s.relays[r].current.None? && |s.relays[r].done| < |s.relays[r].batch|
      && s.relays[r].batch[|s.relays[r].done|] in s.outbox
    case PublishTarget(r) => r in s.relays && CanSend(s.relays[r])
    case Fail(r, sent) => r in s.relays && (sent ==> CanSend(s.relays[r]))
    case Commit(r) => r in s.relays && s.relays[r].current.None? && |s.relays[r].done| == |s.relays[r].batch|
  }

  predicate CanSend(a: Attempt) {
    a.current.Some? && a.current.value.sent < |a.current.value.all| && |a.done| < |a.batch|
  }

  function NextPublication(a: Attempt): Publication
    requires CanSend(a)
  {
    Publication(a.number, a.batch[|a.done|], a.current.value.all[a.current.value.sent])
  }

  function Prepared(a: Attempt, handling: Handling): Attempt {
    match handling
    case Discard => a.(done := a.done + [Discard])
    case Publish(targets) => a.(current := Some(Current(targets, 0)))
  }

  /** After its last target the row is deleted in the transaction. */
  function Sent(a: Attempt): Attempt
    requires CanSend(a)
  {
    var c := a.current.value;
    if c.sent + 1 == |c.all| then a.(done := a.done + [Publish(c.all)], current := None)
    else a.(current := Some(Current(c.all, c.sent + 1)))
  }

  function Elements(batch: seq<RowId>): set<RowId> { set id | id in batch }

  function IndexIn(batch: seq<RowId>, id: RowId): (i: nat)
    requires id in batch
    ensures i < |batch| && batch[i] == id
  {
    if batch[0] == id then 0 else 1 + IndexIn(batch[1..], id)
  }

  function Settlements(a: Attempt): map<RowId, Settlement>
    requires |a.done| == |a.batch|
  {
    map id | id in a.batch :: Settlement(a.number, a.done[IndexIn(a.batch, id)])
  }

  function Next(s: State, step: Step): State
    requires Possible(s, step)
  {
    match step
    case Insert(id, row) => s.(outbox := s.outbox[id := row], inserted := s.inserted[id := row])
    case Begin(r, batch) =>
      s.(relays := s.relays[r := Attempt(s.attempts, batch, [], None)], attempts := s.attempts + 1)
    case PrepareRow(r, powers) =>
      var a := s.relays[r];
      s.(relays := s.relays[r := Prepared(a, Prepare(s.outbox[a.batch[|a.done|]], powers))])
    case PublishTarget(r) =>
      s.(published := s.published + [NextPublication(s.relays[r])], relays := s.relays[r := Sent(s.relays[r])])
    case Fail(r, sent) =>
      s.(published := if sent then s.published + [NextPublication(s.relays[r])] else s.published,
         relays := s.relays - {r})
    case Commit(r) =>
      var a := s.relays[r];
      s.(outbox := s.outbox - Elements(a.batch), relays := s.relays - {r}, settled := s.settled + Settlements(a))
  }

  ghost predicate Run(s: State, steps: seq<Step>, last: State)
    decreases steps
  {
    if steps == [] then s == last else Possible(s, steps[0]) && Run(Next(s, steps[0]), steps[1..], last)
  }

  // -------------------------------------------------------------- invariant

  /** What an attempt published about a row, in order. */
  function Of(published: seq<Publication>, attempt: nat, row: RowId): seq<Target> {
    if published == [] then []
    else
      var last := published[|published| - 1];
      Of(published[..|published| - 1], attempt, row) +
        if last.attempt == attempt && last.row == row then [last.target] else []
  }

  lemma OfOneMore(published: seq<Publication>, p: Publication, attempt: nat, row: RowId)
    ensures Of(published + [p], attempt, row) ==
              Of(published, attempt, row) + if p.attempt == attempt && p.row == row then [p.target] else []
  {
    assert (published + [p])[..|published|] == published;
  }

  /** The row was handled so with the powers of some moment. */
  ghost predicate Justified(row: Row, handling: Handling) { exists powers :: Prepare(row, powers) == handling }

  function Progress(a: Attempt, i: nat): seq<Target> {
    if i < |a.done| then a.done[i].Targets()
    else if i == |a.done| && a.current.Some? && a.current.value.sent <= |a.current.value.all|
      then a.current.value.all[..a.current.value.sent]
    else []
  }

  predicate WellFormed(a: Attempt) {
    && |a.done| <= |a.batch| && Distinct(a.batch)
    && (a.current.Some? ==> CanSend(a))
  }

  ghost predicate RowHandled(a: Attempt, i: nat, outbox: map<RowId, Row>)
    requires i < |a.batch|
  {
    && a.batch[i] in outbox
    && (i < |a.done| ==> Justified(outbox[a.batch[i]], a.done[i]))
    && (i == |a.done| && a.current.Some? ==> Justified(outbox[a.batch[i]], Publish(a.current.value.all)))
  }

  ghost predicate Handled(a: Attempt, outbox: map<RowId, Row>) {
    OldestFirst(outbox, a.batch) && forall i: nat | i < |a.batch| :: RowHandled(a, i, outbox)
  }

  predicate Told(a: Attempt, published: seq<Publication>) {
    && (forall i: nat | i < |a.batch| :: Of(published, a.number, a.batch[i]) == Progress(a, i))
    && (forall k | 0 <= k < |published| && published[k].attempt == a.number :: published[k].row in a.batch)
  }

  ghost predicate AttemptOk(a: Attempt, outbox: map<RowId, Row>, published: seq<Publication>) {
    WellFormed(a) && Handled(a, outbox) && Told(a, published)
  }

  ghost predicate Apart(s: State) {
    && (forall r | r in s.relays :: s.relays[r].number < s.attempts)
    && (forall r, q | r in s.relays && q in s.relays && r != q ::
          s.relays[r].number != s.relays[q].number
            && forall i | 0 <= i < |s.relays[r].batch| :: s.relays[r].batch[i] !in s.relays[q].batch)
  }

  /** Every row ever inserted is still there or was settled, never both. */
  ghost predicate Conserved(s: State) {
    && s.inserted.Keys == s.outbox.Keys + s.settled.Keys && s.outbox.Keys !! s.settled.Keys
    && forall id | id in s.outbox :: s.outbox[id] == s.inserted[id]
  }

  ghost predicate SettledOk(s: State, id: RowId)
    requires id in s.settled && id in s.inserted
  {
    var settlement := s.settled[id];
    && Justified(s.inserted[id], settlement.handling)
    && Of(s.published, settlement.attempt, id) == settlement.handling.Targets()
    && settlement.attempt < s.attempts
    && forall r | r in s.relays :: s.relays[r].number != settlement.attempt
  }

  predicate PublicationsKnown(s: State) {
    forall k | 0 <= k < |s.published| :: s.published[k].attempt < s.attempts && s.published[k].row in s.inserted
  }

  /** Within a batch, publications follow the age of their rows. */
  predicate InOrder(published: seq<Publication>, rows: map<RowId, Row>) {
    forall i, j | 0 <= i < j < |published| && published[i].attempt == published[j].attempt
                  && published[i].row in rows && published[j].row in rows ::
      rows[published[i].row].createdAt <= rows[published[j].row].createdAt
  }

  ghost predicate Attempting(s: State) { forall r | r in s.relays :: AttemptOk(s.relays[r], s.outbox, s.published) }

  ghost predicate Settling(s: State) { forall id | id in s.settled && id in s.inserted :: SettledOk(s, id) }

  ghost predicate Invariant(s: State) {
    && Apart(s) && Attempting(s) && Conserved(s) && Settling(s) && PublicationsKnown(s)
    && InOrder(s.published, s.inserted)
  }

  // -------------------------------------------------------------- steps keep it

  lemma OfUnknown(published: seq<Publication>, attempt: nat, row: RowId)
    requires forall k | 0 <= k < |published| :: published[k].attempt != attempt || published[k].row != row
    ensures Of(published, attempt, row) == []
  {
  }

  /** Settled rows stay so if nothing new is published about them by the attempt that settled them. */
  lemma SettlingKept(s: State, s': State)
    requires Settling(s) && s'.settled == s.settled && s'.attempts >= s.attempts
    requires forall id | id in s.settled && id in s'.inserted :: id in s.inserted && s'.inserted[id] == s.inserted[id]
    requires forall id | id in s.settled && id in s.inserted ::
               Of(s'.published, s.settled[id].attempt, id) == s.settled[id].handling.Targets()
    requires forall r | r in s'.relays ::
               s'.relays[r].number >= s.attempts || (r in s.relays && s.relays[r].number == s'.relays[r].number)
    ensures Settling(s')
  {
    forall id | id in s'.settled && id in s'.inserted ensures SettledOk(s', id) {
      assert SettledOk(s, id);
    }
  }

  lemma SettledTargets(s: State)
    requires Settling(s)
    ensures forall id | id in s.settled && id in s.inserted ::
              Of(s.published, s.settled[id].attempt, id) == s.settled[id].handling.Targets()
  {
    forall id | id in s.settled && id in s.inserted
      ensures Of(s.published, s.settled[id].attempt, id) == s.settled[id].handling.Targets()
    {
      assert SettledOk(s, id);
    }
  }

  lemma InsertKeeps(s: State, id: RowId, row: Row)
    requires Invariant(s) && id !in s.inserted
    ensures Invariant(Next(s, Insert(id, row)))
  {
    AttemptsWithin(s, s.outbox[id := row]);
    InsertKeepsOrder(s, id, row);
    InsertConserves(s, id, row);
    SettledTargets(s);
    SettlingKept(s, Next(s, Insert(id, row)));
  }

  lemma InsertConserves(s: State, id: RowId, row: Row)
    requires Conserved(s) && id !in s.inserted
    ensures Conserved(Next(s, Insert(id, row)))
  {
  }

  lemma InsertKeepsOrder(s: State, id: RowId, row: Row)
    requires PublicationsKnown(s) && InOrder(s.published, s.inserted) && id !in s.inserted
    ensures PublicationsKnown(Next(s, Insert(id, row))) && InOrder(s.published, s.inserted[id := row])
  {
  }

  lemma AttemptsWithin(s: State, outbox: map<RowId, Row>)
    requires Attempting(s) && forall id | id in s.outbox :: id in outbox && outbox[id] == s.outbox[id]
    ensures Attempting(s.(outbox := outbox))
  {
    forall r | r in s.relays ensures AttemptOk(s.relays[r], outbox, s.published) {
      HandledWithin(s.relays[r], s.outbox, outbox);
    }
  }

  lemma HandledWithin(a: Attempt, outbox: map<RowId, Row>, other: map<RowId, Row>)
    requires Handled(a, outbox)
    requires forall i | 0 <= i < |a.batch| && a.batch[i] in outbox ::
             a.batch[i] in other && other[a.batch[i]] == outbox[a.batch[i]]
    ensures Handled(a, other)
  {
    forall i: nat | i < |a.batch| ensures RowHandled(a, i, other) {
      assert RowHandled(a, i, outbox);
    }
  }

  lemma BeginOk(s: State, relay: RelayId, batch: seq<RowId>)
    requires Invariant(s) && Possible(s, Begin(relay, batch))
    ensures AttemptOk(Attempt(s.attempts, batch, [], None), s.outbox, s.published)
  {
    var a := Attempt(s.attempts, batch, [], None);
    forall i: nat | i < |batch| ensures Of(s.published, a.number, batch[i]) == [] && RowHandled(a, i, s.outbox) {
      OfUnknown(s.published, a.number, batch[i]);
    }
  }

  lemma BeginApart(s: State, relay: RelayId, batch: seq<RowId>)
    requires Apart(s) && Possible(s, Begin(relay, batch))
    ensures Apart(Next(s, Begin(relay, batch)))
  {
    forall r, i | r in s.relays && 0 <= i < |s.relays[r].batch| ensures s.relays[r].batch[i] !in batch {
      assert Locked(s, s.relays[r].batch[i]);
    }
    forall r, i | r in s.relays && 0 <= i < |batch| ensures batch[i] !in s.relays[r].batch {
      assert !Locked(s, batch[i]);
    }
  }

  lemma BeginKeeps(s: State, relay: RelayId, batch: seq<RowId>)
    requires Invariant(s) && Possible(s, Begin(relay, batch))
    ensures Invariant(Next(s, Begin(relay, batch)))
  {
    BeginOk(s, relay, batch);
    AttemptReplaced(s, relay, Attempt(s.attempts, batch, [], None), s.published);
    BeginApart(s, relay, batch);
    SettledTargets(s);
    SettlingKept(s, Next(s, Begin(relay, batch)));
  }

  lemma PreparedOk(a: Attempt, outbox: map<RowId, Row>, published: seq<Publication>, powers: Powers)
    requires AttemptOk(a, outbox, published) && a.current.None? && |a.done| < |a.batch|
    ensures a.batch[|a.done|] in outbox
    ensures AttemptOk(Prepared(a, Prepare(outbox[a.batch[|a.done|]], powers)), outbox, published)
  {
    assert RowHandled(a, |a.done|, outbox);
    var handling := Prepare(outbox[a.batch[|a.done|]], powers);
    var a' := Prepared(a, handling);
    forall i: nat | i < |a.batch| ensures RowHandled(a', i, outbox) && Progress(a', i) == Progress(a, i) {
      assert RowHandled(a, i, outbox);
    }
  }

  lemma PrepareKeeps(s: State, relay: RelayId, powers: Powers)
    requires Invariant(s) && Possible(s, PrepareRow(relay, powers))
    ensures Invariant(Next(s, PrepareRow(relay, powers)))
  {
    PreparedOk(s.relays[relay], s.outbox, s.published, powers);
    SettledTargets(s);
    var a := Prepared(s.relays[relay], Prepare(s.outbox[s.relays[relay].batch[|s.relays[relay].done|]], powers));
    ProgressKeeps(s, relay, a, s.published);
  }

  /** One more step of an attempt keeps everything, given what it means for publications. */
  lemma ProgressKeeps(s: State, relay: RelayId, a: Attempt, published: seq<Publication>)
    requires Apart(s) && Conserved(s) && Settling(s) && relay in s.relays
    requires a.number == s.relays[relay].number && a.batch == s.relays[relay].batch && AttemptOk(a, s.outbox, published)
    requires forall r | r in s.relays && r != relay :: AttemptOk(s.relays[r], s.outbox, published)
    requires PublicationsKnown(s.(published := published)) && InOrder(published, s.inserted)
    requires forall id | id in s.settled && id in s.inserted ::
               Of(published, s.settled[id].attempt, id) == s.settled[id].handling.Targets()
    ensures Invariant(s.(relays := s.relays[relay := a], published := published))
  {
    ApartKept(s, relay, a, published);
    AttemptReplaced(s, relay, a, published);
    ProgressSettles(s, relay, a, published);
  }

  lemma ProgressSettles(s: State, relay: RelayId, a: Attempt, published: seq<Publication>)
    requires Settling(s) && relay in s.relays && a.number == s.relays[relay].number
    requires forall id | id in s.settled && id in s.inserted ::
               Of(published, s.settled[id].attempt, id) == s.settled[id].handling.Targets()
    ensures Settling(s.(relays := s.relays[relay := a], published := published))
  {
    SettlingKept(s, s.(relays := s.relays[relay := a], published := published));
  }

  lemma SentOk(a: Attempt, outbox: map<RowId, Row>, published: seq<Publication>)
    requires AttemptOk(a, outbox, published) && CanSend(a)
    ensures AttemptOk(Sent(a), outbox, published + [NextPublication(a)])
  {
    forall i: nat | i < |a.batch| {
      SentRowOk(a, outbox, published, i);
    }
  }

  lemma SentRowOk(a: Attempt, outbox: map<RowId, Row>, published: seq<Publication>, i: nat)
    requires AttemptOk(a, outbox, published) && CanSend(a) && i < |a.batch|
    ensures RowHandled(Sent(a), i, outbox)
    ensures Of(published + [NextPublication(a)], a.number, a.batch[i]) == Progress(Sent(a), i)
  {
    assert RowHandled(a, i, outbox);
    OfOneMore(published, NextPublication(a), a.number, a.batch[i]);
    SentProgress(a, i);
  }

  lemma SentProgress(a: Attempt, i: nat)
    requires WellFormed(a) && CanSend(a)
    ensures Progress(Sent(a), i) == Progress(a, i) + if i == |a.done| then [NextPublication(a).target] else []
  {
    var c := a.current.value;
    if i == |a.done| {
      assert c.all[..c.sent] + [c.all[c.sent]] == c.all[..c.sent + 1];
      assert c.sent + 1 == |c.all| ==> c.all[..c.sent + 1] == c.all;
    }
  }

  lemma ToldElsewhere(a: Attempt, published: seq<Publication>, p: Publication)
    requires Told(a, published) && p.attempt != a.number
    ensures Told(a, published + [p])
  {
    forall i: nat | i < |a.batch| ensures Of(published + [p], a.number, a.batch[i]) == Progress(a, i) {
      OfOneMore(published, p, a.number, a.batch[i]);
    }
  }

  lemma OthersUntouched(s: State, relay: RelayId, p: Publication)
    requires Invariant(s) && relay in s.relays && p.attempt == s.relays[relay].number
    ensures forall r | r in s.relays && r != relay :: AttemptOk(s.relays[r], s.outbox, s.published + [p])
    ensures forall id | id in s.settled && id in s.inserted ::
              Of(s.published + [p], s.settled[id].attempt, id) == s.settled[id].handling.Targets()
  {
    forall r | r in s.relays && r != relay ensures AttemptOk(s.relays[r], s.outbox, s.published + [p]) {
      ToldElsewhere(s.relays[r], s.published, p);
    }
    forall id | id in s.settled && id in s.inserted
      ensures Of(s.published + [p], s.settled[id].attempt, id) == s.settled[id].handling.Targets()
    {
      assert SettledOk(s, id);
      OfOneMore(s.published, p, s.settled[id].attempt, id);
    }
  }

  /** The next publication of an attempt is about a row no older than those it published about before. */
  lemma NextIsYounger(s: State, relay: RelayId, k: int)
    requires Invariant(s) && relay in s.relays && CanSend(s.relays[relay])
    requires 0 <= k < |s.published| && s.published[k].attempt == s.relays[relay].number
    ensures var row := NextPublication(s.relays[relay]).row;
            row in s.inserted && s.published[k].row in s.inserted
              && s.inserted[s.published[k].row].createdAt <= s.inserted[row].createdAt
  {
    var a := s.relays[relay];
    var i := IndexIn(a.batch, s.published[k].row);
    OfSomething(s.published, k);
    assert Progress(a, i) != [];
    assert RowHandled(a, i, s.outbox) && RowHandled(a, |a.done|, s.outbox);
  }

  lemma {:induction false} OfSomething(published: seq<Publication>, k: nat)
    requires k < |published|
    ensures Of(published, published[k].attempt, published[k].row) != []
  {
    if k < |published| - 1 {
      OfSomething(published[..|published| - 1], k);
    }
  }

  lemma InOrderOneMore(published: seq<Publication>, rows: map<RowId, Row>, p: Publication)
    requires InOrder(published, rows)
    requires forall k | 0 <= k < |published| && published[k].attempt == p.attempt ::
               published[k].row in rows && p.row in rows ==> rows[published[k].row].createdAt <= rows[p.row].createdAt
    ensures InOrder(published + [p], rows)
  {
  }

  lemma OrderKept(s: State, relay: RelayId)
    requires Invariant(s) && relay in s.relays && CanSend(s.relays[relay])
    ensures InOrder(s.published + [NextPublication(s.relays[relay])], s.inserted)
  {
    var p := NextPublication(s.relays[relay]);
    forall k | 0 <= k < |s.published| && s.published[k].attempt == p.attempt
      ensures s.published[k].row in s.inserted && p.row in s.inserted
              && s.inserted[s.published[k].row].createdAt <= s.inserted[p.row].createdAt
    {
      NextIsYounger(s, relay, k);
    }
    InOrderOneMore(s.published, s.inserted, p);
  }

  lemma NextIsKnown(s: State, relay: RelayId)
    requires Invariant(s) && relay in s.relays && CanSend(s.relays[relay])
    ensures PublicationsKnown(s.(published := s.published + [NextPublication(s.relays[relay])]))
  {
    assert RowHandled(s.relays[relay], |s.relays[relay].done|, s.outbox);
  }

  /** Progress within a batch changes neither its number nor its rows. */
  lemma ApartKept(s: State, relay: RelayId, a: Attempt, published: seq<Publication>)
    requires Apart(s) && relay in s.relays && a.number == s.relays[relay].number && a.batch == s.relays[relay].batch
    ensures Apart(s.(relays := s.relays[relay := a], published := published))
  {
  }

  lemma AttemptReplaced(s: State, relay: RelayId, a: Attempt, published: seq<Publication>)
    requires AttemptOk(a, s.outbox, published)
    requires forall r | r in s.relays && r != relay :: AttemptOk(s.relays[r], s.outbox, published)
    ensures Attempting(s.(relays := s.relays[relay := a], published := published))
  {
  }

  lemma PublishKeeps(s: State, relay: RelayId)
    requires Invariant(s) && Possible(s, PublishTarget(relay))
    ensures Invariant(Next(s, PublishTarget(relay)))
  {
    SentOk(s.relays[relay], s.outbox, s.published);
    OthersUntouched(s, relay, NextPublication(s.relays[relay]));
    OrderKept(s, relay);
    NextIsKnown(s, relay);
    ProgressKeeps(s, relay, Sent(s.relays[relay]), s.published + [NextPublication(s.relays[relay])]);
  }

  lemma FailKeeps(s: State, relay: RelayId, sent: bool)
    requires Invariant(s) && Possible(s, Fail(relay, sent))
    ensures Invariant(Next(s, Fail(relay, sent)))
  {
    SettledTargets(s);
    if sent {
      OthersUntouched(s, relay, NextPublication(s.relays[relay]));
      OrderKept(s, relay);
      NextIsKnown(s, relay);
    }
    SettlingKept(s, Next(s, Fail(relay, sent)));
  }

  lemma CommitSettles(s: State, relay: RelayId, id: RowId)
    requires Invariant(s) && Possible(s, Commit(relay)) && id in s.relays[relay].batch
    ensures id in s.inserted && SettledOk(Next(s, Commit(relay)), id)
  {
    var a := s.relays[relay];
    var i := IndexIn(a.batch, id);
    assert RowHandled(a, i, s.outbox);
    assert Of(s.published, a.number, a.batch[i]) == Progress(a, i);
  }

  lemma CommitAttempts(s: State, relay: RelayId)
    requires Invariant(s) && Possible(s, Commit(relay))
    ensures Attempting(Next(s, Commit(relay)))
  {
    var s' := Next(s, Commit(relay));
    forall r | r in s'.relays ensures AttemptOk(s'.relays[r], s'.outbox, s'.published) {
      HandledWithin(s.relays[r], s.outbox, s'.outbox);
    }
  }

  lemma CommitConserves(s: State, relay: RelayId)
    requires Invariant(s) && Possible(s, Commit(relay))
    ensures Conserved(Next(s, Commit(relay)))
  {
    var a := s.relays[relay];
    forall id | id in a.batch ensures id in s.outbox {
      assert RowHandled(a, IndexIn(a.batch, id), s.outbox);
    }
  }

  lemma CommitKeeps(s: State, relay: RelayId)
    requires Invariant(s) && Possible(s, Commit(relay))
    ensures Invariant(Next(s, Commit(relay)))
  {
    var a, s' := s.relays[relay], Next(s, Commit(relay));
    CommitAttempts(s, relay);
    CommitConserves(s, relay);
    forall id | id in s'.settled && id in s'.inserted ensures SettledOk(s', id) {
      if id in a.batch {
        CommitSettles(s, relay, id);
      } else {
        assert SettledOk(s, id);
      }
    }
  }

  lemma NextKeepsInvariant(s: State, step: Step)
    requires Invariant(s) && Possible(s, step)
    ensures Invariant(Next(s, step))
  {
    match step
    case Insert(id, row) => InsertKeeps(s, id, row);
    case Begin(r, batch) => BeginKeeps(s, r, batch);
    case PrepareRow(r, powers) => PrepareKeeps(s, r, powers);
    case PublishTarget(r) => PublishKeeps(s, r);
    case Fail(r, sent) => FailKeeps(s, r, sent);
    case Commit(r) => CommitKeeps(s, r);
  }

  lemma {:induction false} RunKeepsInvariant(s: State, steps: seq<Step>, last: State)
    requires Invariant(s) && Run(s, steps, last)
    ensures Invariant(last)
    decreases steps
  {
    if steps != [] {
      NextKeepsInvariant(s, steps[0]);
      RunKeepsInvariant(Next(s, steps[0]), steps[1..], last);
    }
  }

  lemma EmptyInvariant()
    ensures Invariant(EMPTY)
  {
  }

  lemma SomebodyIsReached(row: Row, handling: Handling)
    requires Justified(row, handling)
    ensures exists powers :: Reaches(row, powers, handling)
  {
    var powers :| Prepare(row, powers) == handling;
    TargetsReachTheirKeys(row, powers);
  }

  /** In every run a row stays in the committed outbox until an attempt settled it: every target that this attempt
      computed for it was published by that attempt, in order, or it was discarded. No row is held twice. */
  lemma NoRowIsLost(steps: seq<Step>, s: State, id: RowId)
    requires Run(EMPTY, steps, s) && id in s.inserted
    ensures id in s.outbox <==> id !in s.settled
    ensures id in s.outbox ==> s.outbox[id] == s.inserted[id]
    ensures id in s.settled ==>
              && (exists powers :: Reaches(s.inserted[id], powers, s.settled[id].handling))
              && Of(s.published, s.settled[id].attempt, id) == s.settled[id].handling.Targets()
    ensures forall r, q | r in s.relays && q in s.relays && id in s.relays[r].batch && id in s.relays[q].batch :: r == q
    ensures forall r | r in s.relays && id in s.relays[r].batch :: id in s.outbox
  {
    EmptyInvariant();
    RunKeepsInvariant(EMPTY, steps, s);
    if id in s.settled {
      assert SettledOk(s, id);
      SomebodyIsReached(s.inserted[id], s.settled[id].handling);
    }
    forall r | r in s.relays && id in s.relays[r].batch ensures id in s.outbox {
      assert RowHandled(s.relays[r], IndexIn(s.relays[r].batch, id), s.outbox);
    }
  }

  /** Within one batch, publications follow the age of their rows. */
  lemma BatchesPublishOldestFirst(steps: seq<Step>, s: State, i: nat, j: nat)
    requires Run(EMPTY, steps, s) && i < j < |s.published| && s.published[i].attempt == s.published[j].attempt
    ensures s.published[i].row in s.inserted && s.published[j].row in s.inserted
    ensures s.inserted[s.published[i].row].createdAt <= s.inserted[s.published[j].row].createdAt
  {
    EmptyInvariant();
    RunKeepsInvariant(EMPTY, steps, s);
  }

  // -------------------------------------------------------------- runs without failures

  predicate NoFailure(steps: seq<Step>) { forall i | 0 <= i < |steps| :: !steps[i].Fail? }

  /** The publication is the work of the attempt that settled its row or of one that is still open. */
  predicate AccountedFor(s: State, p: Publication) {
    || (p.row in s.settled && s.settled[p.row].attempt == p.attempt)
    || exists r :: r in s.relays && s.relays[r].number == p.attempt
  }

  predicate AllAccountedFor(s: State) { forall k | 0 <= k < |s.published| :: AccountedFor(s, s.published[k]) }

  lemma CommitAccounts(s: State, relay: RelayId, k: nat)
    requires Invariant(s) && AllAccountedFor(s) && Possible(s, Commit(relay)) && k < |s.published|
    ensures AccountedFor(Next(s, Commit(relay)), s.published[k])
  {
    var a, p := s.relays[relay], s.published[k];
    assert AccountedFor(s, p);
    if p.attempt != a.number {
      if r :| r in s.relays && s.relays[r].number == p.attempt {
        assert r in Next(s, Commit(relay)).relays;
      } else {
        StillSettled(s, relay, p.row);
      }
    }
  }

  lemma StillSettled(s: State, relay: RelayId, id: RowId)
    requires Invariant(s) && Possible(s, Commit(relay)) && id in s.settled
    ensures var s' := Next(s, Commit(relay)); id in s'.settled && s'.settled[id] == s.settled[id]
  {
    var batch := s.relays[relay].batch;
    forall i | 0 <= i < |batch| ensures batch[i] in s.outbox {
      assert RowHandled(s.relays[relay], i, s.outbox);
    }
    assert id !in batch;
  }

  lemma RunningGoesOn(s: State, step: Step, relay: RelayId)
    requires relay in s.relays && Possible(s, step) && !step.Fail? && !step.Commit?
    ensures var s' := Next(s, step); relay in s'.relays && s'.relays[relay].number == s.relays[relay].number
    ensures Next(s, step).settled == s.settled
  {
  }

  lemma NextAccounts(s: State, step: Step)
    requires Invariant(s) && AllAccountedFor(s) && Possible(s, step) && !step.Fail?
    ensures AllAccountedFor(Next(s, step))
  {
    var s' := Next(s, step);
    forall k | 0 <= k < |s'.published| ensures AccountedFor(s', s'.published[k]) {
      if k < |s.published| {
        assert AccountedFor(s, s.published[k]);
        if step.Commit? {
          CommitAccounts(s, step.relay, k);
        } else if r :| r in s.relays && s.relays[r].number == s.published[k].attempt {
          RunningGoesOn(s, step, r);
        }
      } else {
        RunningGoesOn(s, step, step.relay);
      }
    }
  }

  lemma {:induction false} RunAccounts(s: State, steps: seq<Step>, last: State)
    requires Invariant(s) && AllAccountedFor(s) && Run(s, steps, last) && NoFailure(steps)
    ensures Invariant(last) && AllAccountedFor(last)
    decreases steps
  {
    if steps != [] {
      NextKeepsInvariant(s, steps[0]);
      NextAccounts(s, steps[0]);
      RunAccounts(Next(s, steps[0]), steps[1..], last);
    }
  }

  /** What was published about a row by anyone. */
  function About(published: seq<Publication>, row: RowId): seq<Target> {
    if published == [] then []
    else
      var last := published[|published| - 1];
      About(published[..|published| - 1], row) + if last.row == row then [last.target] else []
  }

  lemma AboutOneAttempt(published: seq<Publication>, attempt: nat, row: RowId)
    requires forall k | 0 <= k < |published| && published[k].row == row :: published[k].attempt == attempt
    ensures About(published, row) == Of(published, attempt, row)
  {
  }

  lemma WhoPublished(s: State, k: nat)
    requires Invariant(s) && AllAccountedFor(s) && k < |s.published|
    ensures var p := s.published[k]; Locked(s, p.row) || (p.row in s.settled && s.settled[p.row].attempt == p.attempt)
  {
    assert AccountedFor(s, s.published[k]);
  }

  /** Without failures every target of a settled row is published exactly once, and nothing about a row that no
      relay has taken. */
  lemma WithoutFailuresExactlyOnce(steps: seq<Step>, s: State, id: RowId)
    requires Run(EMPTY, steps, s) && NoFailure(steps) && id in s.inserted
    ensures id in s.settled ==> About(s.published, id) == s.settled[id].handling.Targets()
    ensures id in s.outbox && !Locked(s, id) ==> About(s.published, id) == []
  {
    EmptyInvariant();
    RunAccounts(EMPTY, steps, s);
    if id in s.settled {
      SettledOnce(s, id);
    } else if !Locked(s, id) {
      UntakenIsSilent(s, id);
    }
  }

  lemma SettledOnce(s: State, id: RowId)
    requires Invariant(s) && AllAccountedFor(s) && id in s.settled
    ensures id !in s.outbox && About(s.published, id) == s.settled[id].handling.Targets()
  {
    forall r | r in s.relays ensures id !in s.relays[r].batch {
      forall i | 0 <= i < |s.relays[r].batch| ensures s.relays[r].batch[i] != id {
        assert RowHandled(s.relays[r], i, s.outbox);
      }
    }
    forall k | 0 <= k < |s.published| && s.published[k].row == id
      ensures s.published[k].attempt == s.settled[id].attempt
    {
      WhoPublished(s, k);
    }
    AboutOneAttempt(s.published, s.settled[id].attempt, id);
    assert SettledOk(s, id);
  }

  lemma UntakenIsSilent(s: State, id: RowId)
    requires Invariant(s) && AllAccountedFor(s) && id !in s.settled && !Locked(s, id)
    ensures About(s.published, id) == []
  {
    forall k | 0 <= k < |s.published| ensures s.published[k].row != id {
      WhoPublished(s, k);
    }
    AboutOneAttempt(s.published, 0, id);
    OfUnknown(s.published, 0, id);
  }

  // -------------------------------------------------------------- one relay

  lemma {:induction false} RunAppend(s: State, a: seq<Step>, mid: State, b: seq<Step>, last: State)
    requires Run(s, a, mid) && Run(mid, b, last)
    ensures Run(s, a + b, last) && (NoFailure(a) && NoFailure(b) ==> NoFailure(a + b))
    decreases a
  {
    if a == [] {
      assert a + b == b;
    } else {
      RunAppend(Next(s, a[0]), a[1..], mid, b, last);
      assert (a + b)[1..] == a[1..] + b;
    }
  }

  lemma RunOneMore(s: State, steps: seq<Step>, mid: State, step: Step)
    requires Run(s, steps, mid) && Possible(mid, step)
    ensures Run(s, steps + [step], Next(mid, step))
  {
    assert [step][1..] == [];
    assert Run(Next(mid, step), [], Next(mid, step));
    RunAppend(s, steps, mid, [step], Next(mid, step));
  }

  function Min(a: nat, b: nat): nat { if a < b then a else b }

  /** The table without the first `n` rows of a batch. */
  function Remaining(outbox: map<RowId, Row>, batch: seq<RowId>, n: nat): map<RowId, Row>
    requires n <= |batch|
    decreases n
  {
    if n == 0 then outbox else Remaining(outbox, batch, n - 1) - {batch[n - 1]}
  }

  lemma {:induction false} RemainingAre(outbox: map<RowId, Row>, batch: seq<RowId>, n: nat)
    requires n <= |batch|
    ensures Remaining(outbox, batch, n).Keys == outbox.Keys - Elements(batch[..n])
    ensures forall id | id in Remaining(outbox, batch, n) :: Remaining(outbox, batch, n)[id] == outbox[id]
    decreases n
  {
    if n > 0 {
      RemainingAre(outbox, batch, n - 1);
      assert batch[..n] == batch[..n - 1] + [batch[n - 1]];
    } else {
      assert batch[..0] == [];
    }
  }

  predicate IsBatch(batch: seq<RowId>, outbox: map<RowId, Row>) { Distinct(batch) && OldestFirst(outbox, batch) }

  lemma RemainingOneLess(outbox: map<RowId, Row>, batch: seq<RowId>, n: nat)
    requires IsBatch(batch, outbox) && n < |batch|
    ensures batch[n] in Remaining(outbox, batch, n) && Remaining(outbox, batch, n)[batch[n]] == outbox[batch[n]]
  {
    RemainingAre(outbox, batch, n);
  }

  lemma RemainingAll(outbox: map<RowId, Row>, batch: seq<RowId>)
    ensures Remaining(outbox, batch, |batch|) == outbox - Elements(batch)
  {
    RemainingAre(outbox, batch, |batch|);
    assert batch[..|batch|] == batch;
  }

  lemma {:induction false} DistinctSize(batch: seq<RowId>)
    requires Distinct(batch)
    ensures |Elements(batch)| == |batch|
  {
    if batch == [] {
      assert Elements(batch) == {};
    } else {
      var front, last := batch[..|batch| - 1], batch[|batch| - 1];
      DistinctSize(front);
      assert forall i | 0 <= i < |front| :: front[i] == batch[i];
      assert last !in Elements(front);
      assert Elements(batch) == Elements(front) + {last};
    }
  }

  lemma SizeWithout(outbox: map<RowId, Row>, gone: set<RowId>)
    requires gone <= outbox.Keys
    ensures |outbox - gone| == |outbox| - |gone|
  {
    assert (outbox - gone).Keys == outbox.Keys - gone;
    assert |outbox - gone| == |(outbox - gone).Keys| && |outbox| == |outbox.Keys|;
  }

  lemma RemainingSize(outbox: map<RowId, Row>, batch: seq<RowId>)
    requires IsBatch(batch, outbox)
    ensures |Remaining(outbox, batch, |batch|)| == |outbox| - |batch|
  {
    RemainingAll(outbox, batch);
    DistinctSize(batch);
    SizeWithout(outbox, Elements(batch));
  }

  const SELF: RelayId := 0

  // ------ the steps of a relay that is alone

  function Alone(s: State, a: Attempt, published: seq<Publication>): State {
    s.(relays := map[SELF := a], published := published)
  }

  lemma SendStep(s: State, a: Attempt)
    requires s.relays == map[SELF := a] && CanSend(a)
    ensures Possible(s, PublishTarget(SELF))
    ensures Next(s, PublishTarget(SELF)) == Alone(s, Sent(a), s.published + [NextPublication(a)])
  {
    assert s.relays[SELF := Sent(a)] == map[SELF := Sent(a)];
  }

  lemma PrepareStep(s: State, a: Attempt, powers: Powers)
    requires s.relays == map[SELF := a] && a.current.None? && |a.done| < |a.batch| && a.batch[|a.done|] in s.outbox
    ensures Possible(s, PrepareRow(SELF, powers))
    ensures Next(s, PrepareRow(SELF, powers)) ==
            Alone(s, Prepared(a, Prepare(s.outbox[a.batch[|a.done|]], powers)), s.published)
  {
    var a' := Prepared(a, Prepare(s.outbox[a.batch[|a.done|]], powers));
    assert s.relays[SELF := a'] == map[SELF := a'];
  }

  lemma BeginStep(s: State, batch: seq<RowId>)
    requires s.relays == map[] && IsFetch(s, batch)
    ensures Possible(s, Begin(SELF, batch))
    ensures Next(s, Begin(SELF, batch)) ==
            Alone(s, Attempt(s.attempts, batch, [], None), s.published).(attempts := s.attempts + 1)
  {
  }

  lemma EndStep(s: State, a: Attempt)
    requires s.relays == map[SELF := a]
    ensures var failed := Next(s, Fail(SELF, false)); failed == s.(relays := map[])
    ensures a.current.None? && |a.done| == |a.batch| ==>
              Possible(s, Commit(SELF)) && Next(s, Commit(SELF)).relays == map[]
                && Next(s, Commit(SELF)).published == s.published
              && Next(s, Commit(SELF)).outbox == Remaining(s.outbox, a.batch, |a.batch|)
  {
    assert map[SELF := a] - {SELF} == map[];
    RemainingAll(s.outbox, a.batch);
  }

  function BatchesFor(rows: nat): nat { (rows + BATCH_SIZE - 1) / BATCH_SIZE }

  lemma OneBatchLess(rows: nat)
    ensures rows > 0 ==> BatchesFor(rows) == BatchesFor(rows - Min(rows, BATCH_SIZE)) + 1
  {
  }

  class EventOutboxRelay {
    // the table as the relay's transaction sees it
    var outbox: map<RowId, Row>
    var published: seq<Publication>
    var attempts: nat
    ghost var system: State

    constructor ()
      ensures Idle() && system == EMPTY
    {
      outbox, published, attempts, system := map[], [], 0, EMPTY;
    }

    ghost predicate Idle()
      reads this
    {
      system.relays == map[] && outbox == system.outbox && published == system.published && attempts == system.attempts
    }

    /** In a transaction, with the rows of `a` that are done deleted in it. */
    ghost predicate Working(a: Attempt)
      reads this
    {
      && system.relays == map[SELF := a] && IsBatch(a.batch, system.outbox) && |a.done| <= |a.batch|
      && outbox == Remaining(system.outbox, a.batch, |a.done|) && published == system.published
    }

    /** A trigger writes a row. */
    method Insert(id: RowId, row: Row)
      requires Idle() && id !in system.inserted
      modifies this
      ensures Idle() && Possible(old(system), Step.Insert(id, row)) && system == Next(old(system), Step.Insert(id, row))
    {
      outbox := outbox[id := row];
      system := Next(system, Step.Insert(id, row));
    }

    method FetchBatch() returns (batch: seq<RowId>)
      requires Idle()
      ensures IsFetch(system, batch) && |batch| == Min(|outbox|, 100)
    {
      batch := [];
      var left := outbox.Keys;
      while left != {} && |batch| < BATCH_SIZE
        invariant left <= outbox.Keys && |batch| <= BATCH_SIZE && |batch| + |left| == |outbox|
        invariant Distinct(batch) && OldestFirst(outbox, batch)
        invariant forall id :: id in outbox ==> (id in left <==> id !in batch)
        invariant forall id, i | id in left && 0 <= i < |batch| :: outbox[batch[i]].createdAt <= outbox[id].createdAt
        decreases left
      {
        var id := Oldest(left);
        batch := batch + [id];
        left := left - {id};
      }
    }

    method Oldest(ids: set<RowId>) returns (id: RowId)
      requires ids != {} && ids <= outbox.Keys
      ensures id in ids && forall other | other in ids :: outbox[id].createdAt <= outbox[other].createdAt
    {
      id :| id in ids;
      var todo := ids - {id};
      while todo != {}
        invariant todo <= ids && id in ids
        invariant forall other | other in ids && other !in todo :: outbox[id].createdAt <= outbox[other].createdAt
        decreases todo
      {
        var other :| other in todo;
        if outbox[other].createdAt < outbox[id].createdAt {
          id := other;
        }
        todo := todo - {other};
      }
    }

    /** One more step of the system. */
    ghost method Advance(step: Step, start: State, steps: seq<Step>) returns (longer: seq<Step>)
      requires Possible(system, step) && Run(start, steps, system)
      modifies this`system
      ensures system == Next(old(system), step) && longer == steps + [step] && Run(start, longer, system)
    {
      RunOneMore(start, steps, system, step);
      longer, system := steps + [step], Next(system, step);
    }

    /** Redis.publish */
    method PublishTarget(p: Publication, ghost a: Attempt, ghost start: State, ghost steps: seq<Step>)
      returns (ghost longer: seq<Step>)
      requires system.relays == map[SELF := a] && CanSend(a) && p == NextPublication(a) && published == system.published
      requires Run(start, steps, system) && NoFailure(steps)
      modifies this`published, this`system
      ensures Run(start, longer, system) && NoFailure(longer)
      ensures published == system.published && system == Alone(old(system), Sent(a), old(published) + [p])
    {
      SendStep(system, a);
      published := published + [p];
      longer := Advance(Step.PublishTarget(SELF), start, steps);
    }

    /** Publish one after the other; the one numbered `failAt` fails. */
    method PublishTargets(number: nat, id: RowId, targets: seq<Target>, failAt: Option<nat>,
                          ghost a: Attempt, ghost start: State, ghost steps: seq<Step>)
      returns (failed: bool, ghost longer: seq<Step>)
      requires targets != [] && a.current == Some(Current(targets, 0)) && |a.done| < |a.batch| && a.number == number
               && a.batch[|a.done|] == id
      requires system.relays == map[SELF := a] && published == system.published
      requires Run(start, steps, system) && NoFailure(steps)
      modifies this`published, this`system
      ensures Run(start, longer, system) && NoFailure(longer) && published == system.published
      ensures failed == (failAt.Some? && failAt.value < |targets|)
      ensures failed ==> system == Alone(old(system), a.(current := Some(Current(targets, failAt.value))), published)
      ensures !failed ==>
                system == Alone(old(system), a.(done := a.done + [Publish(targets)], current := None), published)
    {
      longer := steps;
      ghost var now := a;
      var sent := 0;
      while sent < |targets|
        invariant sent <= |targets| && (failAt.Some? ==> sent <= failAt.value)
        invariant Run(start, longer, system) && NoFailure(longer) && published == system.published
        invariant system == Alone(old(system), now, published)
        invariant now == if sent == |targets| then a.(done := a.done + [Publish(targets)], current := None)
                         else a.(current := Some(Current(targets, sent)))
      {
        if failAt == Some(sent) {
          return true, longer;
        }
        longer := PublishTarget(Publication(number, id, targets[sent]), now, start, longer);
        now, sent := Sent(now), sent + 1;
      }
      failed := false;
    }

    method PrepareRowForPublishing(id: RowId, powers: Powers, ghost a: Attempt, ghost start: State,
                                   ghost steps: seq<Step>)
      returns (handling: Handling, ghost longer: seq<Step>)
      requires Working(a) && a.current.None? && |a.done| < |a.batch| && a.batch[|a.done|] == id
      requires Run(start, steps, system) && NoFailure(steps)
      modifies this`system
      ensures handling == Prepare(old(system).outbox[id], powers)
              && system == Alone(old(system), Prepared(a, handling), published)
      ensures Run(start, longer, system) && NoFailure(longer)
    {
      RemainingOneLess(system.outbox, a.batch, |a.done|);
      handling := Prepare(outbox[id], powers);
      PrepareStep(system, a, powers);
      longer := Advance(PrepareRow(SELF, powers), start, steps);
    }

    method DeleteOutboxRow(id: RowId, ghost a: Attempt, ghost after: Attempt)
      requires Finishes(a, after) && system.relays == map[SELF := after] && IsBatch(a.batch, system.outbox)
               && published == system.published
      requires |a.done| < |a.batch| && a.batch[|a.done|] == id && outbox == Remaining(system.outbox, a.batch, |a.done|)
      modifies this`outbox
      ensures Working(after)
    {
      RemainingOneLess(system.outbox, a.batch, |a.done|);
      outbox := outbox - {id};
    }

    predicate Finishes(a: Attempt, after: Attempt) { after.batch == a.batch && |after.done| == |a.done| + 1 }

    /** Prepare and publish one row and delete it; the publish numbered `failAt` fails. */
    method ProcessRow(number: nat, id: RowId, powers: Powers, failAt: Option<nat>,
                      ghost a: Attempt, ghost start: State, ghost steps: seq<Step>)
      returns (failed: bool, ghost after: Attempt, ghost longer: seq<Step>)
      requires Working(a) && a.current.None? && |a.done| < |a.batch| && a.number == number && a.batch[|a.done|] == id
      requires Run(start, steps, system) && NoFailure(steps)
      modifies this`outbox, this`published, this`system
      ensures Run(start, longer, system) && NoFailure(longer) && system == Alone(old(system), after, published)
      ensures after.batch == a.batch && (failAt.None? ==> !failed)
      ensures !failed ==> after == a.(done := a.done + [Prepare(old(system).outbox[id], powers)]) && Working(after)
    {
      var handling;
      handling, longer := PrepareRowForPublishing(id, powers, a, start, steps);
      after, failed := Prepared(a, handling), false;
      if handling.Publish? {
        failed, longer := PublishTargets(number, id, handling.targets, failAt, after, start, longer);
        after := system.relays[SELF];
      }
      if !failed {
        DeleteOutboxRow(id, a, after);
      }
    }

    method ProcessRows(number: nat, batch: seq<RowId>, powers: Powers, faults: map<RowId, nat>, ghost begun: State)
      returns (failed: bool, ghost a: Attempt, ghost steps: seq<Step>)
      requires system == begun && Working(Attempt(number, batch, [], None))
      modifies this`outbox, this`published, this`system
      ensures Run(begun, steps, system) && NoFailure(steps)
      ensures a.batch == batch && (faults == map[] ==> !failed)
      ensures system.relays == map[SELF := a] && published == system.published && system.outbox == begun.outbox
              && system.attempts == begun.attempts
      ensures !failed ==> Working(a) && |a.done| == |batch| && a.current.None?
    {
      a, steps, failed := Attempt(number, batch, [], None), [], false;
      assert system == Alone(begun, a, published);
      var i := 0;
      while i < |batch|
        invariant i <= |batch| && Run(begun, steps, system) && NoFailure(steps) && system == Alone(begun, a, published)
        invariant Working(a) && a.batch == batch && |a.done| == i && a.number == number && a.current.None?
      {
        var failAt := if batch[i] in faults then Some(faults[batch[i]]) else None;
        failed, a, steps := ProcessRow(number, batch[i], powers, failAt, a, begun, steps);
        if failed {
          return;
        }
        i := i + 1;
      }
    }

    method BeginTransaction(ghost start: State, ghost steps: seq<Step>)
      returns (number: nat, batch: seq<RowId>, ghost longer: seq<Step>)
      requires Idle() && Run(start, steps, system)
      modifies this`attempts, this`system
      ensures |batch| == Min(|outbox|, BATCH_SIZE) && IsBatch(batch, outbox) && system.outbox == outbox
      ensures Run(start, longer, system) && (NoFailure(steps) ==> NoFailure(longer)) && attempts == system.attempts
      ensures Working(Attempt(number, batch, [], None))
    {
      batch := FetchBatch();
      number := attempts;
      BeginStep(system, batch);
      longer := Advance(Begin(SELF, batch), start, steps);
      attempts := number + 1;
    }

    /** Commit, or put the table back. */
    method EndTransaction(failed: bool, committed: map<RowId, Row>, ghost a: Attempt, ghost start: State,
                          ghost steps: seq<Step>)
      returns (ghost longer: seq<Step>)
      requires system.relays == map[SELF := a] && published == system.published && attempts == system.attempts
      requires committed == system.outbox && Run(start, steps, system)
      requires !failed ==> Working(a) && |a.done| == |a.batch| && a.current.None?
      modifies this`outbox, this`system
      ensures Idle() && Run(start, longer, system) && (!failed && NoFailure(steps) ==> NoFailure(longer))
      ensures outbox == if failed then committed else Remaining(committed, a.batch, |a.batch|)
    {
      if failed {
        longer := Rollback(committed, a, start, steps);
      } else {
        longer := CommitTransaction(a, start, steps);
      }
    }

    method Rollback(committed: map<RowId, Row>, ghost a: Attempt, ghost start: State, ghost steps: seq<Step>)
      returns (ghost longer: seq<Step>)
      requires system.relays == map[SELF := a] && published == system.published && attempts == system.attempts
      requires committed == system.outbox && Run(start, steps, system)
      modifies this`outbox, this`system
      ensures Idle() && Run(start, longer, system) && outbox == committed
    {
      EndStep(system, a);
      outbox := committed;
      longer := Advance(Fail(SELF, false), start, steps);
    }

    method CommitTransaction(ghost a: Attempt, ghost start: State, ghost steps: seq<Step>)
      returns (ghost longer: seq<Step>)
      requires system.relays == map[SELF := a] && published == system.published && attempts == system.attempts
      requires outbox == Remaining(system.outbox, a.batch, |a.batch|) && |a.done| == |a.batch| && a.current.None?
               && Run(start, steps, system)
      modifies this`system
      ensures Idle() && Run(start, longer, system) && (NoFailure(steps) ==> NoFailure(longer))
    {
      EndStep(system, a);
      longer := Advance(Commit(SELF), start, steps);
    }

    /** The rest of the transaction. */
    method FinishTransaction(number: nat, batch: seq<RowId>, powers: Powers, faults: map<RowId, nat>)
      returns (failed: bool, ghost steps: seq<Step>)
      requires Working(Attempt(number, batch, [], None)) && attempts == system.attempts && outbox == system.outbox
      modifies this
      ensures Idle() && Run(old(system), steps, system) && (!failed ==> NoFailure(steps))
              && (faults == map[] ==> !failed)
      ensures outbox == if failed then old(outbox) else Remaining(old(outbox), batch, |batch|)
    {
      var committed := outbox;
      ghost var begun := system;
      ghost var a;
      failed, a, steps := ProcessRows(number, batch, powers, faults, begun);
      steps := EndTransaction(failed, committed, a, begun, steps);
    }

    /** One transaction. A failure undoes its deletions, not its publications. */
    method ProcessBatch(powers: Powers, faults: map<RowId, nat>, ghost start: State, ghost steps: seq<Step>)
      returns (processed: nat, failed: bool, ghost longer: seq<Step>)
      requires Idle() && Run(start, steps, system)
      modifies this
      ensures Idle() && Run(start, longer, system)
      ensures failed ==> outbox == old(outbox)
      ensures !failed ==> processed == Min(|old(outbox)|, 100) && |outbox| == |old(outbox)| - processed
      ensures faults == map[] ==> !failed && (NoFailure(steps) ==> NoFailure(longer))
    {
      var number, batch;
      number, batch, longer := BeginTransaction(start, steps);
      RemainingSize(outbox, batch);
      processed := |batch|;
      ghost var begun := system;
      ghost var rest;
      failed, rest := FinishTransaction(number, batch, powers, faults);
      RunAppend(start, longer, begun, rest, system);
      longer := longer + rest;
    }

    /** The loop, with nothing failing and nothing arriving, until a batch finds no rows: the outbox is empty after
        one batch for every hundred rows begun. */
    method Drain(powers: Powers, ghost start: State, ghost steps: seq<Step>)
      returns (batches: nat, ghost longer: seq<Step>)
      requires Idle() && Run(start, steps, system) && NoFailure(steps)
      modifies this
      ensures Idle() && outbox == map[] && Run(start, longer, system) && NoFailure(longer)
      ensures batches == (|old(outbox)| + 99) / 100
    {
      batches, longer := 0, steps;
      var processed := 1;
      while processed != 0
        invariant Idle() && Run(start, longer, system) && NoFailure(longer)
        invariant processed == 0 ==> outbox == map[]
        invariant batches + BatchesFor(|outbox|) == BatchesFor(|old(outbox)|)
        decreases |outbox|, processed
      {
        OneBatchLess(|outbox|);
        var failed;
        processed, failed, longer := ProcessBatch(powers, map[], start, longer);
        if processed != 0 {
          batches := batches + 1;
        }
      }
    }
  }
}
