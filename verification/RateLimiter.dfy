/** The sliding window limiter: a Redis sorted set that forgets, compared with a log that remembers every allowed
    request. */
module RateLimiter {
  import opened Collections

  const WINDOW_MS := 60_000
  const KEY_TTL_MS := 65_000
  // how much the distance between the limiter's clock and the one of Redis may vary
  const SLACK_MS := 5_000

  type Member = nat

  type Scores = map<Member, int>

  // one sorted set and the time at which Redis drops it
  datatype Key = Key(scores: Scores, expiresAt: int)

  // `now` is read from the limiter's clock before the call, `at` is the time of Redis when the script runs
  datatype Request = Request(now: int, at: int, member: Member)

  datatype Reply = Reply(allowed: bool, count: nat, oldest: int)

  datatype Headers = Headers(limit: int, remaining: int, reset: int, retryAfter: Option<int>)

  datatype Decision = Accepted(headers: Headers) | RateLimited(headers: Headers) | ServiceUnavailable

  datatype Delivery = Answered | Lost | NotReached

  // -------------------------------------------------------------- the script

  function Present(key: Key, at: int): Scores { if at > key.expiresAt then map[] else key.scores }

  function NewerThan(scores: Scores, start: int): Scores { map m | m in scores && scores[m] > start :: scores[m] }

  predicate IsOldest(scores: Scores, oldest: int) {
    (exists m :: m in scores && scores[m] == oldest) && forall m | m in scores :: oldest <= scores[m]
  }

  /** What the script answers and leaves behind. */
  ghost predicate Script(key: Key, request: Request, limit: int, reply: Reply, after: Key) {
    var kept := NewerThan(Present(key, request.at), request.now - WINDOW_MS);
    && reply.allowed == (|kept| < limit)
    && after == (if reply.allowed then Key(kept[request.member := request.now], request.at + KEY_TTL_MS)
                 else Key(kept, key.expiresAt))
    && reply.count == (if reply.allowed then |kept| + 1 else |kept|)
    && if after.scores == map[] then reply.oldest == request.now else IsOldest(after.scores, reply.oldest)
  }

  /** The smallest multiple of a second that is not before. */
  function CeilSeconds(ms: int): (seconds: int)
    ensures forall s :: seconds <= s <==> ms <= 1000 * s
  {
    (ms + 999) / 1000
  }

  function ToHeaders(reply: Reply, limit: int, now: int): Headers {
    var resetAt := reply.oldest + WINDOW_MS;
    var msBeforeReset := if resetAt - now > 0 then resetAt - now else 0;
    Headers(limit,
            if reply.allowed && limit - reply.count > 0 then limit - reply.count else 0,
            CeilSeconds(resetAt),
            if reply.allowed then None
            else Some(if CeilSeconds(msBeforeReset) > 1 then CeilSeconds(msBeforeReset) else 1))
  }

  class SlidingWindow {
    var scores: Scores
    var expiresAt: int

    constructor ()
      ensures View() == Key(map[], 0)
    {
      scores, expiresAt := map[], 0;
    }

    function View(): Key
      reads this
    {
      Key(scores, expiresAt)
    }

    /** ZRANGE key 0 0 WITHSCORES */
    method OldestScore() returns (oldest: Option<int>)
      ensures if scores == map[] then oldest.None? else oldest.Some? && IsOldest(scores, oldest.value)
    {
      oldest := None;
      var todo := scores.Keys;
      while todo != {}
        invariant todo <= scores.Keys
        invariant oldest.None? ==> todo == scores.Keys
        invariant oldest.Some? ==> exists m :: m in scores && scores[m] == oldest.value
        invariant oldest.Some? ==> forall m | m in scores && m !in todo :: oldest.value <= scores[m]
        decreases todo
      {
        var m :| m in todo;
        if oldest.None? || scores[m] < oldest.value {
          oldest := Some(scores[m]);
        }
        todo := todo - {m};
      }
      if oldest.None? {
        assert scores == map[];
      }
    }

    method Eval(request: Request, limit: int) returns (reply: Reply)
      modifies this
      ensures Script(old(View()), request, limit, reply, View())
    {
      scores := NewerThan(Present(View(), request.at), request.now - WINDOW_MS);
      var count := |scores|;
      if count >= limit {
        var oldest := OldestScore();
        return Reply(false, count, if oldest.Some? then oldest.value else request.now);
      }
      scores := scores[request.member := request.now];
      expiresAt := request.at + KEY_TTL_MS;
      assert request.member in scores;
      var oldest := OldestScore();
      reply := Reply(true, count + 1, if oldest.Some? then oldest.value else request.now);
    }

    /** One request of a consumer. A script whose answer was lost has run all the same. */
    method Consume(request: Request, limit: int, delivery: Delivery) returns (decision: Decision, ghost reply: Reply)
      modifies this
      ensures delivery == NotReached ==> View() == old(View())
      ensures delivery != NotReached ==> Script(old(View()), request, limit, reply, View())
      ensures decision == if delivery != Answered then ServiceUnavailable
                          else if reply.allowed then Accepted(ToHeaders(reply, limit, request.now))
                          else RateLimited(ToHeaders(reply, limit, request.now))
    {
      decision, reply := ServiceUnavailable, Reply(false, 0, 0);
      if delivery != NotReached {
        var answer := Eval(request, limit);
        reply := answer;
        if delivery == Answered {
          var headers := ToHeaders(answer, limit, request.now);
          decision := if answer.allowed then Accepted(headers) else RateLimited(headers);
        }
      }
    }
  }

  // -------------------------------------------------------------- against the full log

  // every request that was ever allowed, with its time
  type Log = map<Member, int>

  /** The allowed requests of the minute after `start`. */
  function Window(log: Log, start: int): set<Member> { set m | m in log && start < log[m] <= start + 60_000 }

  datatype State = State(key: Key, log: Log, now: int, at: int)

  function Initial(now: int, at: int): State { State(Key(map[], 0), map[], now, at) }

  /** Clocks do not go back, their distance varies by at most the slack, and members are fresh. */
  predicate Possible(s: State, request: Request, skew: int) {
    s.now <= request.now && s.at <= request.at && skew <= request.at - request.now <= skew + SLACK_MS
      && request.member !in s.log
  }

  function Next(s: State, request: Request, reply: Reply, after: Key): State {
    State(after, if reply.allowed then s.log[request.member := request.now] else s.log, request.now, request.at)
  }

  datatype Step = Step(request: Request, reply: Reply, after: Key)

  ghost predicate Run(s: State, steps: seq<Step>, limit: int, skew: int, last: State)
    decreases steps
  {
    if steps == [] then s == last
    else
      && Possible(s, steps[0].request, skew)
      && Script(s.key, steps[0].request, limit, steps[0].reply, steps[0].after)
      && Run(Next(s, steps[0].request, steps[0].reply, steps[0].after), steps[1..], limit, skew, last)
  }

  /** What the sorted set still knows of the log. */
  ghost predicate Remembers(s: State, skew: int) {
    && (forall m | m in s.log :: s.log[m] <= s.now && s.log[m] + skew + KEY_TTL_MS <= s.key.expiresAt)
    && (forall m | m in s.key.scores :: m in s.log && s.key.scores[m] == s.log[m])
    && (forall m | m in s.log && s.log[m] > s.now - WINDOW_MS :: m in s.key.scores)
    && (s.log != map[] ==> s.key.expiresAt <= s.at + KEY_TTL_MS)
  }

  ghost predicate Bounded(log: Log, limit: int) { forall start :: |Window(log, start)| <= limit }

  ghost predicate Invariant(s: State, limit: int, skew: int) { Remembers(s, skew) && Bounded(s.log, limit) }

  /** Neither the purge nor the expiry of the key loses a request of the window. */
  lemma KeptIsTheWindow(s: State, request: Request, skew: int)
    requires Remembers(s, skew) && Possible(s, request, skew)
    ensures var kept := NewerThan(Present(s.key, request.at), request.now - WINDOW_MS);
            && kept.Keys == Window(s.log, request.now - 60_000) && |kept| == |Window(s.log, request.now - 60_000)|
            && forall m | m in kept :: kept[m] == s.log[m]
  {
    var kept := NewerThan(Present(s.key, request.at), request.now - WINDOW_MS);
    forall m | m in Window(s.log, request.now - 60_000) ensures m in kept {
      assert s.log[m] + skew + KEY_TTL_MS <= s.key.expiresAt;
    }
    assert kept.Keys == Window(s.log, request.now - 60_000);
    assert |kept| == |kept.Keys|;
  }

  /** A request is allowed exactly if the full log has fewer than `limit` in the trailing window. */
  lemma DecidesLikeTheFullLog(s: State, request: Request, limit: int, skew: int, reply: Reply, after: Key)
    requires Invariant(s, limit, skew) && Possible(s, request, skew) && Script(s.key, request, limit, reply, after)
    ensures reply.allowed <==> |Window(s.log, request.now - 60_000)| < limit
    ensures !reply.allowed ==> reply.count == |Window(s.log, request.now - 60_000)| == limit
  {
    KeptIsTheWindow(s, request, skew);
  }

  lemma WindowAfter(log: Log, member: Member, now: int, limit: int, start: int)
    requires member !in log && (forall m | m in log :: log[m] <= now)
    requires |Window(log, now - 60_000)| < limit && |Window(log, start)| <= limit
    ensures |Window(log[member := now], start)| <= limit
  {
    var longer := log[member := now];
    if start < now <= start + WINDOW_MS {
      assert Window(longer, start) <= Window(log, now - 60_000) + {member};
      SubsetSize(Window(longer, start), Window(log, now - 60_000) + {member});
    } else {
      assert Window(longer, start) == Window(log, start);
    }
  }

  lemma NextKeepsInvariant(s: State, request: Request, limit: int, skew: int, reply: Reply, after: Key)
    requires Invariant(s, limit, skew) && Possible(s, request, skew) && Script(s.key, request, limit, reply, after)
    ensures Invariant(Next(s, request, reply, after), limit, skew)
  {
    KeptIsTheWindow(s, request, skew);
    if reply.allowed {
      var longer := s.log[request.member := request.now];
      forall start ensures |Window(longer, start)| <= limit {
        WindowAfter(s.log, request.member, request.now, limit, start);
      }
    }
  }

  lemma {:induction false} RunKeepsInvariant(s: State, steps: seq<Step>, limit: int, skew: int, last: State)
    requires Invariant(s, limit, skew) && Run(s, steps, limit, skew, last)
    ensures Invariant(last, limit, skew)
    decreases steps
  {
    if steps != [] {
      var step := steps[0];
      NextKeepsInvariant(s, step.request, limit, skew, step.reply, step.after);
      RunKeepsInvariant(Next(s, step.request, step.reply, step.after), steps[1..], limit, skew, last);
    }
  }

  /** In every run, every window of a minute, wherever it starts, holds at most `limit` allowed requests. */
  lemma EveryWindowIsBounded(now: int, at: int, steps: seq<Step>, limit: nat, skew: int, last: State, start: int)
    requires Run(Initial(now, at), steps, limit, skew, last)
    ensures |Window(last.log, start)| <= limit
    ensures Invariant(last, limit, skew)
  {
    var empty: Log := map[];
    forall from ensures |Window(empty, from)| <= limit {
      assert Window(empty, from) == {};
    }
    RunKeepsInvariant(Initial(now, at), steps, limit, skew, last);
  }

  // -------------------------------------------------------------- headers

  lemma OldestOfWindow(s: State, request: Request, limit: int, skew: int, reply: Reply, after: Key)
    requires Invariant(s, limit, skew) && Possible(s, request, skew) && Script(s.key, request, limit, reply, after)
    requires limit >= 1
    ensures var log := Next(s, request, reply, after).log;
            && (exists m :: m in Window(log, request.now - 60_000) && log[m] == reply.oldest)
            && (forall m | m in Window(log, request.now - 60_000) :: reply.oldest <= log[m])
  {
    KeptIsTheWindow(s, request, skew);
    var kept, log := after.scores, Next(s, request, reply, after).log;
    if reply.allowed {
      assert request.member in kept;
    }
    assert kept.Keys == Window(log, request.now - 60_000);
    assert kept != map[];
    var m :| m in kept && kept[m] == reply.oldest;
    assert m in Window(log, request.now - 60_000);
  }

  /** The header is the least whole number of seconds after which the oldest request has left the window. */
  lemma RetryAfterSeconds(reply: Reply, limit: int, now: int, seconds: nat)
    requires !reply.allowed && now - WINDOW_MS < reply.oldest <= now
    ensures var retryAfter := ToHeaders(reply, limit, now).retryAfter;
            retryAfter.Some? && 1 <= retryAfter.value <= 60
            && (reply.oldest + WINDOW_MS <= now + 1000 * seconds <==> retryAfter.value <= seconds)
  {
  }

  /** After a refusal, with no other request on the key, a retry some whole seconds later is allowed exactly if it
      is not before `Retry-After`, which is between one second and a minute. */
  lemma RetryAfterIsExact(s: State, request: Request, limit: int, skew: int, reply: Reply, after: Key,
                          retry: Request, seconds: nat, answer: Reply, final: Key)
    requires limit >= 1
    requires Invariant(s, limit, skew) && Possible(s, request, skew) && Script(s.key, request, limit, reply, after)
             && !reply.allowed
    requires var refused := Next(s, request, reply, after);
             Possible(refused, retry, skew) && Script(refused.key, retry, limit, answer, final)
    requires retry.now == request.now + 1000 * seconds
    ensures var headers := ToHeaders(reply, limit, request.now);
            headers.retryAfter.Some? && 1 <= headers.retryAfter.value <= 60
              && (answer.allowed <==> headers.retryAfter.value <= seconds)
  {
    var refused := Next(s, request, reply, after);
    NextKeepsInvariant(s, request, limit, skew, reply, after);
    DecidesLikeTheFullLog(s, request, limit, skew, reply, after);
    DecidesLikeTheFullLog(refused, retry, limit, skew, answer, final);
    OldestOfWindow(s, request, limit, skew, reply, after);
    var now, later := Window(s.log, request.now - 60_000), Window(s.log, retry.now - 60_000);
    assert later <= now;
    var first :| first in now && s.log[first] == reply.oldest;
    RetryAfterSeconds(reply, limit, request.now, seconds);
    if reply.oldest + WINDOW_MS <= retry.now {
      assert later <= now - {first};
      SubsetSize(later, now - {first});
    } else {
      assert later == now;
    }
  }

  /** The headers of every answer: the limit; what the window still has room for, which is nothing after a refusal; the
      first whole second at which its oldest request has left it; and when to retry only after a refusal. */
  lemma HeadersAreExact(s: State, request: Request, limit: int, skew: int, reply: Reply, after: Key, second: int)
    requires Invariant(s, limit, skew) && Possible(s, request, skew) && Script(s.key, request, limit, reply, after)
             && limit >= 1
    ensures var headers, log := ToHeaders(reply, limit, request.now), Next(s, request, reply, after).log;
            && headers.limit == limit
            && headers.remaining + |Window(log, request.now - 60_000)| == limit
            && (headers.reset <= second <==>
                exists m :: m in Window(log, request.now - 60_000) && log[m] + 60_000 <= 1000 * second)
            && (headers.retryAfter.None? <==> reply.allowed)
  {
    DecidesLikeTheFullLog(s, request, limit, skew, reply, after);
    OldestOfWindow(s, request, limit, skew, reply, after);
    if reply.allowed {
      KeptIsTheWindow(s, request, skew);
      var log := Next(s, request, reply, after).log;
      assert Window(log, request.now - 60_000) == Window(s.log, request.now - 60_000) + {request.member};
    }
  }
}
