/** Resolving API keys through a local cache in each process, a shared Redis cache of known and of missing keys, and
    the database. Times are in milliseconds. */
module ApiKeyResolver {
  import opened Collections

  const LOCAL_TTL := 30_000
  const POSITIVE_TTL := 300_000
  const NEGATIVE_TTL := 45_000

  type PublicId = string
  type ProcessId = nat

  datatype Consumer = Consumer(apiKeyId: string, publicId: PublicId, keyName: string, rpmLimit: int,
                               maxSseConnections: int)

  datatype Record = Record(consumer: Consumer, secretHash: string, isActive: bool)

  datatype Resolution = Accepted(consumer: Consumer) | Anonymous | InvalidApiKey | ServiceUnavailable

  // what a request brings; the secret is already hashed
  datatype Presented = NoKey | Malformed | ApiKey(publicId: PublicId, secretHash: string)

  // which of the calls to Redis and the database fail
  datatype Faults = Faults(negativeRead: bool, positiveRead: bool, lookup: bool, negativeWrite: bool,
                           positiveWrite: bool)

  datatype Local = Local(record: Record, storedAt: int)

  // a cached record that parses, or text that does not
  datatype CachedText = Json(record: Record) | Corrupt

  datatype Positive = Positive(text: CachedText, expiresAt: int)

  // everything the system knows about one public id, as one process sees it
  datatype View = View(local: Option<Local>, negative: Option<int>, positive: Option<Positive>, row: Option<Record>)

  datatype Answer = Answer(view: View, resolution: Resolution)

  function ValidateRecord(record: Record, secretHash: string): Resolution {
    if !record.isActive || secretHash != record.secretHash then InvalidApiKey else Accepted(record.consumer)
  }

  function LocalHit(local: Option<Local>, now: int): Option<Record> {
    if local.Some? && now - local.value.storedAt <= LOCAL_TTL then Some(local.value.record) else None
  }

  predicate NegativeHit(negative: Option<int>, now: int) { negative.Some? && now <= negative.value }

  function PositiveHit(positive: Option<Positive>, now: int): Option<Record> {
    if positive.Some? && now <= positive.value.expiresAt && positive.value.text.Json?
      then Some(positive.value.text.record) else None
  }

  // the stretches of a resolution between its awaits
  datatype Stage = CheckLocal | ReadNegative | ReadPositive | LookUp

  // the answer, or None to go on with the next stage
  datatype Outcome = Outcome(view: View, answer: Option<Resolution>)

  function Do(v: View, stage: Stage, now: int, secretHash: string, faults: Faults): Outcome {
    match stage
    case CheckLocal => DoCheckLocal(v, now, secretHash)
    case ReadNegative =>
      Outcome(v, if faults.negativeRead then Some(ServiceUnavailable)
                 else if NegativeHit(v.negative, now) then Some(InvalidApiKey)
                 else None)
    case ReadPositive =>
      if faults.positiveRead then Outcome(v, Some(ServiceUnavailable)) else DoReadPositive(v, now, secretHash)
    case LookUp => if faults.lookup then Outcome(v, Some(ServiceUnavailable)) else DoLookUp(v, now, secretHash, faults)
  }

  function DoCheckLocal(v: View, now: int, secretHash: string): Outcome {
    match LocalHit(v.local, now)
    case Some(record) => Outcome(v, Some(ValidateRecord(record, secretHash)))
    case None => Outcome(v, None)
  }

  function DoReadPositive(v: View, now: int, secretHash: string): Outcome {
    match PositiveHit(v.positive, now)
    case Some(record) => Outcome(v.(local := Some(Local(record, now))), Some(ValidateRecord(record, secretHash)))
    case None => Outcome(v, None)
  }

  /** The lookup and the cache writes that follow it. */
  function DoLookUp(v: View, now: int, secretHash: string, faults: Faults): Outcome {
    if v.row.None? || !v.row.value.isActive then
      Outcome(if faults.negativeWrite then v else v.(negative := Some(now + NEGATIVE_TTL)), Some(InvalidApiKey))
    else
      var cached := v.(local := Some(Local(v.row.value, now)));
      Outcome(if faults.positiveWrite then cached
              else cached.(positive := Some(Positive(Json(v.row.value), now + POSITIVE_TTL))),
              Some(ValidateRecord(v.row.value, secretHash)))
  }

  /** The stages one after the other, with nothing in between. */
  function Resolve(v: View, now: int, secretHash: string, faults: Faults): Answer {
    var stage := AnsweringStage(v, now, faults);
    Answer(Do(v, stage, now, secretHash, faults).view, Do(v, stage, now, secretHash, faults).answer.value)
  }

  /** The first stage that answers; the ones before it change nothing. */
  function AnsweringStage(v: View, now: int, faults: Faults): (stage: Stage)
    ensures forall h :: Do(v, stage, now, h, faults).answer.Some?
    ensures stage != CheckLocal ==> forall h :: Do(v, CheckLocal, now, h, faults) == Outcome(v, None)
    ensures stage.ReadPositive? || stage.LookUp? ==> forall h :: Do(v, ReadNegative, now, h, faults) == Outcome(v, None)
    ensures stage.LookUp? ==> forall h :: Do(v, ReadPositive, now, h, faults) == Outcome(v, None)
  {
    if LocalHit(v.local, now).Some? then CheckLocal
    else if faults.negativeRead || NegativeHit(v.negative, now) then ReadNegative
    else if faults.positiveRead || PositiveHit(v.positive, now).Some? then ReadPositive
    else LookUp
  }

  // -------------------------------------------------------------- the resolver

  class SharedState {
    var negative: map<PublicId, int>
    var positive: map<PublicId, Positive>
    var rows: map<PublicId, Record>

    constructor (keys: map<PublicId, Record>)
      ensures negative == map[] && positive == map[] && rows == keys
    {
      negative, positive, rows := map[], map[], keys;
    }
  }

  function Get<V>(m: map<PublicId, V>, id: PublicId): Option<V> { if id in m then Some(m[id]) else None }

  class Resolver {
    var localCache: map<PublicId, Local>
    const shared: SharedState

    constructor (state: SharedState)
      ensures shared == state && localCache == map[]
    {
      shared, localCache := state, map[];
    }

    function ViewOf(id: PublicId): View
      reads this, shared
    {
      View(Get(localCache, id), Get(shared.negative, id), Get(shared.positive, id), Get(shared.rows, id))
    }

    method CacheMissingPublicId(id: PublicId, now: int, faults: Faults)
      modifies shared`negative
      ensures shared.negative ==
              if faults.negativeWrite then old(shared.negative) else old(shared.negative)[id := now + NEGATIVE_TTL]
    {
      if !faults.negativeWrite {
        shared.negative := shared.negative[id := now + NEGATIVE_TTL];
      }
    }

    method CacheRecord(id: PublicId, record: Record, now: int, faults: Faults)
      modifies shared`positive
      ensures shared.positive == if faults.positiveWrite then old(shared.positive)
                                 else old(shared.positive)[id := Positive(Json(record), now + POSITIVE_TTL)]
    {
      if !faults.positiveWrite {
        shared.positive := shared.positive[id := Positive(Json(record), now + POSITIVE_TTL)];
      }
    }

    /** Resolve a presented key; only what is known about that key may change. */
    method ResolveKey(presented: Presented, now: int, faults: Faults) returns (resolution: Resolution)
      modifies this`localCache, shared`negative, shared`positive
      ensures presented == NoKey ==> resolution == Anonymous
      ensures presented == Malformed ==> resolution == InvalidApiKey
      ensures presented.ApiKey? ==>
                Answer(ViewOf(presented.publicId), resolution) ==
                  Resolve(old(ViewOf(presented.publicId)), now, presented.secretHash, faults)
      ensures forall id | !presented.ApiKey? || id != presented.publicId :: ViewOf(id) == old(ViewOf(id))
    {
      if presented.NoKey? {
        return Anonymous;
      }
      if presented.Malformed? {
        return InvalidApiKey;
      }
      var id := presented.publicId;
      if id in localCache && now - localCache[id].storedAt <= LOCAL_TTL {
        return ValidateRecord(localCache[id].record, presented.secretHash);
      }
      if faults.negativeRead {
        return ServiceUnavailable;
      }
      if id in shared.negative && now <= shared.negative[id] {
        return InvalidApiKey;
      }
      if faults.positiveRead {
        return ServiceUnavailable;
      }
      if id in shared.positive && now <= shared.positive[id].expiresAt && shared.positive[id].text.Json? {
        var record := shared.positive[id].text.record;
        localCache := localCache[id := Local(record, now)];
        return ValidateRecord(record, presented.secretHash);
      }
      resolution := ResolveFromDatabase(id, now, presented.secretHash, faults);
    }

    method ResolveFromDatabase(id: PublicId, now: int, secretHash: string, faults: Faults)
      returns (resolution: Resolution)
      modifies this`localCache, shared`negative, shared`positive
      ensures Outcome(ViewOf(id), Some(resolution)) == Do(old(ViewOf(id)), LookUp, now, secretHash, faults)
      ensures forall other | other != id :: ViewOf(other) == old(ViewOf(other))
    {
      if faults.lookup {
        return ServiceUnavailable;
      }
      if id !in shared.rows || !shared.rows[id].isActive {
        CacheMissingPublicId(id, now, faults);
        return InvalidApiKey;
      }
      var record := shared.rows[id];
      localCache := localCache[id := Local(record, now)];
      CacheRecord(id, record, now, faults);
      return ValidateRecord(record, secretHash);
    }
  }

  // -------------------------------------------------------------- runs

  // one public id in all processes
  datatype World = World(locals: map<ProcessId, Local>, negative: Option<int>, positive: Option<Positive>,
                         row: Option<Record>, now: int)

  datatype Event =
    // one stage of one of the resolutions under way in a process
    | Stepped(process: ProcessId, stage: Stage, secretHash: string, faults: Faults)
    | LocalEvicted(process: ProcessId)
    | NegativeEvicted
    | PositiveEvicted
    | PositiveCorrupted(expiresAt: int)
    | RowChanged(row: Option<Record>)

  datatype TimedEvent = At(now: int, event: Event)

  function ViewOf(w: World, process: ProcessId): View {
    View(if process in w.locals then Some(w.locals[process]) else None, w.negative, w.positive, w.row)
  }

  function WithView(w: World, process: ProcessId, v: View): World {
    World(if v.local.Some? then w.locals[process := v.local.value] else w.locals - {process},
          v.negative, v.positive, v.row, w.now)
  }

  function Next(w: World, e: TimedEvent): World {
    var w := w.(now := e.now);
    match e.event
    case Stepped(process, stage, secretHash, faults) =>
      WithView(w, process, Do(ViewOf(w, process), stage, e.now, secretHash, faults).view)
    case LocalEvicted(process) => w.(locals := w.locals - {process})
    case NegativeEvicted => w.(negative := None)
    case PositiveEvicted => w.(positive := None)
    case PositiveCorrupted(expiresAt) => w.(positive := Some(Positive(Corrupt, expiresAt)))
    case RowChanged(row) => w.(row := row)
  }

  function Run(w: World, events: seq<TimedEvent>): World {
    if events == [] then w else Next(Run(w, events[..|events| - 1]), events[|events| - 1])
  }

  predicate Ordered(now: int, events: seq<TimedEvent>)
    decreases |events|
  {
    events != [] ==>
      Ordered(now, events[..|events| - 1])
        && (if |events| == 1 then now else events[|events| - 2].now) <= events[|events| - 1].now
  }

  predicate RowKept(events: seq<TimedEvent>) { forall i | 0 <= i < |events| :: !events[i].event.RowChanged? }

  function Empty(row: Option<Record>, now: int): World { World(map[], None, None, row, now) }

  /** No cached value comes from the future. */
  predicate Sane(w: World) {
    && (forall p | p in w.locals :: w.locals[p].storedAt <= w.now)
    && (w.negative.Some? ==> w.negative.value <= w.now + NEGATIVE_TTL)
    && (w.positive.Some? && w.positive.value.text.Json? ==> w.positive.value.expiresAt <= w.now + POSITIVE_TTL)
  }

  /** What the caches say agrees with the row, except what was looked up no later than `bound`. */
  predicate Agrees(w: World, bound: int) {
    && (forall p | p in w.locals :: w.row == Some(w.locals[p].record) || w.locals[p].storedAt <= bound + POSITIVE_TTL)
    && (w.negative.Some? ==> w.row.None? || !w.row.value.isActive || w.negative.value <= bound + NEGATIVE_TTL)
    && (w.positive.Some? && w.positive.value.text.Json? ==>
          w.row == Some(w.positive.value.text.record) || w.positive.value.expiresAt <= bound + POSITIVE_TTL)
  }

  /** The same of one view. */
  predicate ViewSane(v: View, now: int) {
    && (v.local.Some? ==> v.local.value.storedAt <= now)
    && (v.negative.Some? ==> v.negative.value <= now + NEGATIVE_TTL)
    && (v.positive.Some? && v.positive.value.text.Json? ==> v.positive.value.expiresAt <= now + POSITIVE_TTL)
  }

  predicate ViewAgrees(v: View, bound: int) {
    && (v.local.Some? ==> v.row == Some(v.local.value.record) || v.local.value.storedAt <= bound + POSITIVE_TTL)
    && (v.negative.Some? ==> v.row.None? || !v.row.value.isActive || v.negative.value <= bound + NEGATIVE_TTL)
    && (v.positive.Some? && v.positive.value.text.Json? ==>
          v.row == Some(v.positive.value.text.record) || v.positive.value.expiresAt <= bound + POSITIVE_TTL)
  }

  lemma StageAgrees(v: View, stage: Stage, now: int, secretHash: string, faults: Faults, bound: int)
    requires ViewSane(v, now)
    ensures var after := Do(v, stage, now, secretHash, faults).view;
            ViewSane(after, now) && after.row == v.row && (ViewAgrees(v, bound) ==> ViewAgrees(after, bound))
  {
  }

  lemma NextAgrees(w: World, e: TimedEvent, bound: int)
    requires Sane(w) && w.now <= e.now
    ensures Sane(Next(w, e)) && Next(w, e).now == e.now
    ensures Agrees(w, bound) && !e.event.RowChanged? ==> Agrees(Next(w, e), bound) && Next(w, e).row == w.row
  {
    if e.event.Stepped? {
      var v := ViewOf(w, e.event.process);
      StageAgrees(v, e.event.stage, e.now, e.event.secretHash, e.event.faults, bound);
      WithAgreeingView(w.(now := e.now), e.event.process,
                       Do(v, e.event.stage, e.now, e.event.secretHash, e.event.faults).view, bound);
      assert ViewOf(w.(now := e.now), e.event.process) == v;
    }
  }

  lemma WithAgreeingView(w: World, process: ProcessId, v: View, bound: int)
    requires Sane(w) && ViewSane(v, w.now) && v.row == w.row
    ensures Sane(WithView(w, process, v))
    ensures Agrees(w, bound) && ViewAgrees(v, bound) ==> Agrees(WithView(w, process, v), bound)
  {
  }

  lemma {:induction false} RunAgrees(w: World, events: seq<TimedEvent>, bound: int)
    requires Sane(w) && Ordered(w.now, events)
    ensures Sane(Run(w, events)) && Run(w, events).now == LastTime(w.now, events)
    ensures Agrees(w, bound) && RowKept(events) ==> Agrees(Run(w, events), bound) && Run(w, events).row == w.row
    decreases |events|
  {
    if events != [] {
      var front, last := events[..|events| - 1], events[|events| - 1];
      RunAgrees(w, front, bound);
      assert RowKept(events) ==> RowKept(front) && !last.event.RowChanged?;
      NextAgrees(Run(w, front), last, bound);
    }
  }

  function LastTime(now: int, events: seq<TimedEvent>): int { if events == [] then now else events[|events| - 1].now }

  lemma AgreeingCachesAnswerDirectly(v: View, stage: Stage, now: int, secretHash: string, faults: Faults, bound: int)
    requires ViewAgrees(v, bound) && bound + POSITIVE_TTL + LOCAL_TTL < now
    ensures var answer := Do(v, stage, now, secretHash, faults).answer;
            if CallFails(stage, faults) then answer == Some(ServiceUnavailable)
            else answer.None? || Right(v.row, secretHash, answer.value)
  {
  }

  /** The call that a stage makes failed. */
  predicate CallFails(stage: Stage, faults: Faults) {
    match stage
    case CheckLocal => false
    case ReadNegative => faults.negativeRead
    case ReadPositive => faults.positiveRead
    case LookUp => faults.lookup
  }

  /** The answer that the row itself gives: its consumer if it is active and the secret is right, and otherwise that the
      key is invalid. */
  predicate Right(row: Option<Record>, secretHash: string, resolution: Resolution) {
    if row.Some? && row.value.isActive && row.value.secretHash == secretHash
    then resolution == Accepted(row.value.consumer) else resolution == InvalidApiKey
  }

  /** Whatever stage answers, the answer is that of a direct lookup, or that the service is unavailable exactly if the
      stage's call failed. A whole resolution is unavailable only if a call failed. */
  ghost predicate AnswersDirectly(w: World, now: int, process: ProcessId, secretHash: string) {
    && (forall stage, faults ::
          var answer := Do(ViewOf(w, process), stage, now, secretHash, faults).answer;
          if CallFails(stage, faults) then answer == Some(ServiceUnavailable)
          else answer.None? || Right(w.row, secretHash, answer.value))
    && (forall faults ::
          var resolution := Resolve(ViewOf(w, process), now, secretHash, faults).resolution;
          if resolution == ServiceUnavailable then exists stage :: CallFails(stage, faults)
          else Right(w.row, secretHash, resolution))
  }

  lemma AgreeingWorldAnswersDirectly(w: World, now: int, process: ProcessId, secretHash: string, bound: int)
    requires Agrees(w, bound) && bound + POSITIVE_TTL + LOCAL_TTL < now
    ensures AnswersDirectly(w, now, process, secretHash)
  {
    forall stage, faults
      ensures var answer := Do(ViewOf(w, process), stage, now, secretHash, faults).answer;
              if CallFails(stage, faults) then answer == Some(ServiceUnavailable)
              else answer.None? || Right(w.row, secretHash, answer.value)
    {
      AgreeingCachesAnswerDirectly(ViewOf(w, process), stage, now, secretHash, faults, bound);
    }
    forall faults
      ensures var resolution := Resolve(ViewOf(w, process), now, secretHash, faults).resolution;
              if resolution == ServiceUnavailable then exists stage :: CallFails(stage, faults)
              else Right(w.row, secretHash, resolution)
    {
      var stage := AnsweringStage(ViewOf(w, process), now, faults);
      assert Do(ViewOf(w, process), stage, now, secretHash, faults).answer ==
               Some(Resolve(ViewOf(w, process), now, secretHash, faults).resolution);
      assert CallFails(stage, faults) || !CallFails(stage, faults);
    }
  }

  /** While the key's row is what it was from the start, every answer other than `ServiceUnavailable` is that of a
      direct lookup, whatever was cached, evicted, corrupted or failed before and however resolutions interleave. */
  lemma UnchangedRowIsAnsweredDirectly(row: Option<Record>, start: int, events: seq<TimedEvent>,
                                       now: int, process: ProcessId, secretHash: string)
    requires Ordered(start, events) && RowKept(events) && Run(Empty(row, start), events).now <= now
    ensures Run(Empty(row, start), events).row == row
            && AnswersDirectly(Run(Empty(row, start), events), now, process, secretHash)
  {
    var bound := now - POSITIVE_TTL - LOCAL_TTL - 1;
    RunAgrees(Empty(row, start), events, bound);
    AgreeingWorldAnswersDirectly(Run(Empty(row, start), events), now, process, secretHash, bound);
  }

  /** Any events, then a change of the row. */
  function Changed(row: Option<Record>, start: int, before: seq<TimedEvent>, change: TimedEvent): World {
    Next(Run(Empty(row, start), before), change)
  }

  predicate IsChange(start: int, before: seq<TimedEvent>, change: TimedEvent) {
    Ordered(start, before) && change.event.RowChanged? && LastTime(start, before) <= change.now
  }

  lemma ChangedAgrees(row: Option<Record>, start: int, before: seq<TimedEvent>, change: TimedEvent)
    requires IsChange(start, before, change)
    ensures var w := Changed(row, start, before, change);
            Sane(w) && w.now == change.now && w.row == change.event.row && Agrees(w, LastTime(start, before))
  {
    RunAgrees(Empty(row, start), before, 0);
    NextAgrees(Run(Empty(row, start), before), change, 0);
  }

  /** After a change of the row, whatever happened before, answers are direct again once 330 seconds have passed
      since the last event before the change. */
  lemma ChangeIsSeenInTime(row: Option<Record>, start: int, before: seq<TimedEvent>, change: TimedEvent,
                           after: seq<TimedEvent>, now: int, process: ProcessId, secretHash: string)
    requires IsChange(start, before, change) && Ordered(change.now, after) && RowKept(after)
    requires LastTime(change.now, after) <= now && LastTime(start, before) + 330_000 < now
    ensures var w := Run(Changed(row, start, before, change), after);
            w.row == change.event.row && AnswersDirectly(w, now, process, secretHash)
  {
    ChangedAgrees(row, start, before, change);
    RunAgrees(Changed(row, start, before, change), after, LastTime(start, before));
    AgreeingWorldAnswersDirectly(Run(Changed(row, start, before, change), after), now, process, secretHash,
                                 LastTime(start, before));
  }

  // -------------------------------------------------------------- a key that stays deactivated

  predicate Inactive(row: Option<Record>) { row.None? || !row.value.isActive }

  predicate StaysInactive(events: seq<TimedEvent>) {
    forall i | 0 <= i < |events| && events[i].event.RowChanged? :: Inactive(events[i].event.row)
  }

  /** No row is active, and what the caches hold of an active one was looked up no later than `bound`. */
  predicate OnlyOld(w: World, bound: int) {
    && Inactive(w.row)
    && (forall p | p in w.locals && w.locals[p].record.isActive :: w.locals[p].storedAt <= bound + POSITIVE_TTL)
    && (w.positive.Some? && w.positive.value.text.Json? && w.positive.value.text.record.isActive ==>
          w.positive.value.expiresAt <= bound + POSITIVE_TTL)
  }

  lemma NextOnlyOld(w: World, e: TimedEvent, bound: int)
    requires OnlyOld(w, bound) && (e.event.RowChanged? ==> Inactive(e.event.row))
    ensures OnlyOld(Next(w, e), bound)
  {
  }

  lemma {:induction false} RunOnlyOld(w: World, events: seq<TimedEvent>, bound: int)
    requires OnlyOld(w, bound) && StaysInactive(events)
    ensures OnlyOld(Run(w, events), bound)
    decreases |events|
  {
    if events != [] {
      RunOnlyOld(w, events[..|events| - 1], bound);
      NextOnlyOld(Run(w, events[..|events| - 1]), events[|events| - 1], bound);
    }
  }

  /** A key deactivated or deleted at some time is never accepted 330 seconds later, whatever changes its row sees
      meanwhile that leave it so. */
  lemma DeactivatedKeyIsRefused(row: Option<Record>, start: int, before: seq<TimedEvent>, change: TimedEvent,
                                after: seq<TimedEvent>,
                                now: int, process: ProcessId, stage: Stage, secretHash: string, faults: Faults)
    requires IsChange(start, before, change) && LastTime(start, before) < change.now && Inactive(change.event.row)
    requires Ordered(change.now, after) && StaysInactive(after) && LastTime(change.now, after) <= now
    requires change.now + 330_000 <= now
    ensures var v := ViewOf(Run(Changed(row, start, before, change), after), process);
            && (forall consumer :: Do(v, stage, now, secretHash, faults).answer != Some(Accepted(consumer)))
            && !Resolve(v, now, secretHash, faults).resolution.Accepted?
  {
    RunAgrees(Empty(row, start), before, 0);
    assert OnlyOld(Changed(row, start, before, change), LastTime(start, before));
    RunOnlyOld(Changed(row, start, before, change), after, LastTime(start, before));
  }

  // -------------------------------------------------------------- each cache by itself

  /** No cache holds the key's record, and a mark that it is missing is no older than `bound`. */
  predicate NothingCached(w: World, bound: int) {
    w.locals == map[] && (w.positive.Some? ==> w.positive.value.text.Corrupt?)
    && (w.negative.Some? ==> w.negative.value <= bound + NEGATIVE_TTL)
  }

  lemma NextNothingCached(w: World, e: TimedEvent, bound: int)
    requires NothingCached(w, bound) && Inactive(w.row) && e.now <= bound && !e.event.RowChanged?
    ensures NothingCached(Next(w, e), bound) && Next(w, e).row == w.row
  {
  }

  lemma {:induction false} RunNothingCached(w: World, events: seq<TimedEvent>, bound: int)
    requires NothingCached(w, bound) && Inactive(w.row) && RowKept(events) && Ordered(w.now, events)
    requires LastTime(w.now, events) <= bound
    ensures NothingCached(Run(w, events), bound) && Run(w, events).row == w.row
    decreases |events|
  {
    if events != [] {
      var front, last := events[..|events| - 1], events[|events| - 1];
      RunNothingCached(w, front, bound);
      NextNothingCached(Run(w, front), last, bound);
    }
  }

  /** What is cached after a change is the row, except for a mark that it is missing of before. */
  predicate OnlyMarkIsOld(w: World, bound: int) {
    && (forall p | p in w.locals :: w.row == Some(w.locals[p].record))
    && (w.positive.Some? && w.positive.value.text.Json? ==> w.row == Some(w.positive.value.text.record))
    && (w.negative.Some? ==> Inactive(w.row) || w.negative.value <= bound + NEGATIVE_TTL)
  }

  lemma NextOnlyMarkIsOld(w: World, e: TimedEvent, bound: int)
    requires OnlyMarkIsOld(w, bound) && !e.event.RowChanged?
    ensures OnlyMarkIsOld(Next(w, e), bound) && Next(w, e).row == w.row
  {
  }

  lemma {:induction false} RunOnlyMarkIsOld(w: World, events: seq<TimedEvent>, bound: int)
    requires OnlyMarkIsOld(w, bound) && RowKept(events)
    ensures OnlyMarkIsOld(Run(w, events), bound) && Run(w, events).row == w.row
    decreases |events|
  {
    if events != [] {
      RunOnlyMarkIsOld(w, events[..|events| - 1], bound);
      NextOnlyMarkIsOld(Run(w, events[..|events| - 1]), events[|events| - 1], bound);
    }
  }

  lemma FreshViewAnswers(w: World, bound: int, now: int, process: ProcessId, secretHash: string, faults: Faults)
    requires OnlyMarkIsOld(w, bound) && bound + NEGATIVE_TTL < now
    ensures var resolution := Resolve(ViewOf(w, process), now, secretHash, faults).resolution;
            if resolution == ServiceUnavailable then exists stage :: CallFails(stage, faults)
            else Right(w.row, secretHash, resolution)
  {
    var stage := AnsweringStage(ViewOf(w, process), now, faults);
    assert CallFails(stage, faults) || !CallFails(stage, faults);
  }

  /** A key that was absent or inactive from the start is answered directly once 45 seconds have passed since the last
      event before it was created or activated. */
  lemma NewKeyIsSeenInTime(row: Option<Record>, start: int, before: seq<TimedEvent>, change: TimedEvent,
                           after: seq<TimedEvent>, now: int, process: ProcessId, secretHash: string, faults: Faults)
    requires Inactive(row) && RowKept(before) && IsChange(start, before, change) && RowKept(after)
    requires LastTime(start, before) + 45_000 < now
    ensures var w := Run(Changed(row, start, before, change), after);
            var resolution := Resolve(ViewOf(w, process), now, secretHash, faults).resolution;
            && w.row == change.event.row
            && if resolution == ServiceUnavailable then exists stage :: CallFails(stage, faults)
               else Right(w.row, secretHash, resolution)
  {
    var bound := LastTime(start, before);
    RunNothingCached(Empty(row, start), before, bound);
    RunOnlyMarkIsOld(Changed(row, start, before, change), after, bound);
    FreshViewAnswers(Run(Changed(row, start, before, change), after), bound, now, process, secretHash, faults);
  }

  /** The 45 seconds are reached: a key looked up in the millisecond before it is created is still unknown then. */
  lemma MarkBoundIsReached(consumer: Consumer) returns (before: seq<TimedEvent>, change: TimedEvent)
    ensures var key := Record(consumer, "h", true);
            && IsChange(0, before, change) && RowKept(before) && change == At(0, RowChanged(Some(key)))
            && Resolve(ViewOf(Changed(None, 0, before, change), 0), 45_000, "h", NO_FAULTS).resolution == InvalidApiKey
  {
    before := [StepOf(0, 0, LookUp)];
    change := At(0, RowChanged(Some(Record(consumer, "h", true))));
    var w := Empty(None, 0);
    assert before[..0] == [] && Run(w, before) == Next(Run(w, []), before[0]);
    assert Run(w, before).negative == Some(45_000);
  }

  /** What the local caches hold of an active record is from no later than `bound`, and Redis holds none. */
  predicate OnlyLocalIsOld(w: World, bound: int) {
    && Inactive(w.row) && (w.positive.Some? && w.positive.value.text.Json? ==> !w.positive.value.text.record.isActive)
    && (forall p | p in w.locals && w.locals[p].record.isActive :: w.locals[p].storedAt <= bound)
  }

  lemma NextOnlyLocalIsOld(w: World, e: TimedEvent, bound: int)
    requires OnlyLocalIsOld(w, bound) && (e.event.RowChanged? ==> Inactive(e.event.row))
    ensures OnlyLocalIsOld(Next(w, e), bound)
  {
  }

  lemma {:induction false} RunOnlyLocalIsOld(w: World, events: seq<TimedEvent>, bound: int)
    requires OnlyLocalIsOld(w, bound) && StaysInactive(events)
    ensures OnlyLocalIsOld(Run(w, events), bound)
    decreases |events|
  {
    if events != [] {
      RunOnlyLocalIsOld(w, events[..|events| - 1], bound);
      NextOnlyLocalIsOld(Run(w, events[..|events| - 1]), events[|events| - 1], bound);
    }
  }

  /** Of the 330 seconds 30 are those of a local cache: a deactivated key that Redis does not hold is refused after
      them. */
  lemma LocallyCachedKeyIsRefused(row: Option<Record>, start: int, before: seq<TimedEvent>, change: TimedEvent,
                                  after: seq<TimedEvent>,
                                  now: int, process: ProcessId, secretHash: string, faults: Faults)
    requires IsChange(start, before, change) && Inactive(change.event.row) && StaysInactive(after)
    requires Run(Empty(row, start), before).positive.None? && LastTime(start, before) + 30_000 < now
    ensures var v := ViewOf(Run(Changed(row, start, before, change), after), process);
            !Resolve(v, now, secretHash, faults).resolution.Accepted?
  {
    RunAgrees(Empty(row, start), before, 0);
    RunOnlyLocalIsOld(Changed(row, start, before, change), after, LastTime(start, before));
  }

  /** And those are reached: a key looked up in the millisecond of its deletion is accepted locally 30 seconds later,
      although Redis does not hold it. */
  lemma LocalBoundIsReached(consumer: Consumer) returns (before: seq<TimedEvent>, change: TimedEvent)
    ensures var key := Record(consumer, "h", true);
            && IsChange(0, before, change) && change == At(0, RowChanged(None))
            && Run(Empty(Some(key), 0), before).positive.None?
            && Resolve(ViewOf(Changed(Some(key), 0, before, change), 0), 30_000, "h", NO_FAULTS).resolution
               == Accepted(consumer)
  {
    var key := Record(consumer, "h", true);
    var w := Empty(Some(key), 0);
    var lookup, evicted := StepOf(0, 0, LookUp), At(0, PositiveEvicted);
    RunOneMore(w, [], lookup);
    RunOneMore(w, [] + [lookup], evicted);
    before := [] + [lookup] + [evicted];
    change := At(0, RowChanged(None));
    assert Run(w, before).locals[0] == Local(key, 0);
  }

  const NO_FAULTS := Faults(false, false, false, false, false)

  function StepOf(process: ProcessId, now: int, stage: Stage): TimedEvent {
    At(now, Stepped(process, stage, "h", NO_FAULTS))
  }

  lemma RunOneMore(w: World, events: seq<TimedEvent>, e: TimedEvent)
    ensures Run(w, events + [e]) == Next(Run(w, events), e)
    ensures Ordered(w.now, events) && LastTime(w.now, events) <= e.now ==> Ordered(w.now, events + [e])
  {
    assert (events + [e])[..|events|] == events;
  }

  /** The first stages of a resolution that finds nothing. */
  lemma FindsNothing(w: World, process: ProcessId, now: int) returns (events: seq<TimedEvent>)
    requires process !in w.locals && w.negative.None? && w.now <= now
    ensures Run(w, events) == w.(now := now) && Ordered(w.now, events) && StaysInactive(events)
    ensures events != [] && LastTime(w.now, events) == now
  {
    assert w.locals - {process} == w.locals;
    var first, second := StepOf(process, now, CheckLocal), StepOf(process, now, ReadNegative);
    RunOneMore(w, [], first);
    RunOneMore(w, [] + [first], second);
    events := [] + [first] + [second];
  }

  /** The bound is reached: a key looked up in the millisecond of its deactivation is still accepted 330 seconds
      later, through Redis and then a local cache. */
  lemma BoundIsReached(consumer: Consumer) returns (before: seq<TimedEvent>, change: TimedEvent, after: seq<TimedEvent>)
    ensures var key, inactive := Record(consumer, "h", true), Record(consumer, "h", false);
            && IsChange(0, before, change) && change == At(0, RowChanged(Some(inactive)))
            && Ordered(0, after) && StaysInactive(after) && LastTime(0, after) <= 330_000
            && Resolve(ViewOf(Run(Changed(Some(key), 0, before, change), after), 1), 330_000, "h",
                       NO_FAULTS).resolution == Accepted(consumer)
  {
    var key, inactive := Record(consumer, "h", true), Record(consumer, "h", false);
    var w0 := Empty(Some(key), 0);
    before := FindsNothing(w0, 0, 0);
    RunOneMore(w0, before, StepOf(0, 0, ReadPositive));
    before := before + [StepOf(0, 0, ReadPositive)];
    assert Run(w0, before).locals == map[];
    RunOneMore(w0, before, StepOf(0, 0, LookUp));
    before := before + [StepOf(0, 0, LookUp)];
    change := At(0, RowChanged(Some(inactive)));
    var w1 := Changed(Some(key), 0, before, change);
    assert w1 == World(map[0 := Local(key, 0)], None, Some(Positive(Json(key), 300_000)), Some(inactive), 0);
    after := FindsNothing(w1, 1, 300_000);
    RunOneMore(w1, after, StepOf(1, 300_000, ReadPositive));
    after := after + [StepOf(1, 300_000, ReadPositive)];
    assert Run(w1, after).locals[1] == Local(key, 300_000);
  }
}
