/** The protocol starts an operation of a key exactly when the chain of promises would: every run of `Subscriptions` is
    a run of the chains in `SerializedOperations`. */
module SerializedProtocol {
  import opened Collections
  import S = Subscriptions
  import C = SerializedOperations

  // -------------------------------------------------------------- the calls that wait

  /** The operations of a key whose calls wait, in call order; `ops` says what each call does. */
  function WaitingOps(calls: seq<C.Call>, ops: seq<S.Operation>, k: S.Key): seq<S.Operation>
    requires |ops| == |calls|
  {
    if calls == [] then []
    else
      var n := |calls| - 1;
      WaitingOps(calls[..n], ops[..n], k) + if calls[n].key == k && calls[n].status == C.Waiting then [ops[n]] else []
  }

  predicate Waits(calls: seq<C.Call>, k: S.Key, j: int) {
    0 <= j < |calls| && calls[j].key == k && calls[j].status == C.Waiting
  }

  predicate WaitsFirst(calls: seq<C.Call>, k: S.Key, j: int) {
    Waits(calls, k, j) && forall i | 0 <= i < j :: !Waits(calls, k, i)
  }

  predicate Running(c: C.Chains, k: S.Key, i: int) {
    0 <= i < |c.calls| && c.calls[i].key == k && c.calls[i].status == C.Running
  }

  lemma {:induction false} NobodyWaits(calls: seq<C.Call>, ops: seq<S.Operation>, k: S.Key)
    requires |ops| == |calls| && forall i | 0 <= i < |calls| :: !Waits(calls, k, i)
    ensures WaitingOps(calls, ops, k) == []
    decreases |calls|
  {
    if calls != [] {
      var n := |calls| - 1;
      assert !Waits(calls, k, n);
      forall i | 0 <= i < n ensures !Waits(calls[..n], k, i) {
        assert !Waits(calls, k, i);
      }
      NobodyWaits(calls[..n], ops[..n], k);
    }
  }

  lemma {:induction false} SomebodyWaits(calls: seq<C.Call>, ops: seq<S.Operation>, k: S.Key) returns (j: nat)
    requires |ops| == |calls| && WaitingOps(calls, ops, k) != []
    ensures WaitsFirst(calls, k, j)
    decreases |calls|
  {
    var n := |calls| - 1;
    if WaitingOps(calls[..n], ops[..n], k) != [] {
      j := SomebodyWaits(calls[..n], ops[..n], k);
      assert forall i | 0 <= i <= j :: Waits(calls, k, i) <==> Waits(calls[..n], k, i);
    } else {
      j := n;
      forall i | 0 <= i < n ensures !Waits(calls, k, i) {
        if Waits(calls, k, i) {
          assert Waits(calls[..n], k, i);
          WaiterIsListed(calls[..n], ops[..n], k, i);
        }
      }
    }
  }

  lemma {:induction false} WaiterIsListed(calls: seq<C.Call>, ops: seq<S.Operation>, k: S.Key, j: nat)
    requires |ops| == |calls| && Waits(calls, k, j)
    ensures WaitingOps(calls, ops, k) != []
    decreases |calls|
  {
    var n := |calls| - 1;
    if j < n {
      assert Waits(calls[..n], k, j);
      WaiterIsListed(calls[..n], ops[..n], k, j);
    }
  }

  /** When the first waiting call of its key begins, its operation leaves the front. */
  lemma {:induction false} FirstBegins(calls: seq<C.Call>, ops: seq<S.Operation>, j: nat, begun: C.Call, k: S.Key)
    requires |ops| == |calls| && j < |calls| && WaitsFirst(calls, calls[j].key, j)
    requires begun.key == calls[j].key && begun.status != C.Waiting
    ensures var before, after := WaitingOps(calls, ops, k), WaitingOps(calls[j := begun], ops, k);
            if k == calls[j].key then before == [ops[j]] + after else before == after
    decreases |calls|
  {
    var n := |calls| - 1;
    if j == n {
      assert calls[j := begun][..n] == calls[..n];
      if k == calls[j].key {
        forall i | 0 <= i < n ensures !Waits(calls[..n], k, i) {
          assert !Waits(calls, k, i);
        }
        NobodyWaits(calls[..n], ops[..n], k);
      }
    } else {
      var key := calls[j].key;
      assert forall i | 0 <= i <= j :: Waits(calls[..n], key, i) <==> Waits(calls, key, i);
      assert calls[j := begun][..n] == calls[..n][j := begun];
      FirstBegins(calls[..n], ops[..n], j, begun, k);
    }
  }

  lemma {:induction false} NotWaiting(calls: seq<C.Call>, ops: seq<S.Operation>, j: nat, call: C.Call, k: S.Key)
    requires |ops| == |calls| && j < |calls| && calls[j].status != C.Waiting && call.status != C.Waiting
    ensures WaitingOps(calls[j := call], ops, k) == WaitingOps(calls, ops, k)
    decreases |calls|
  {
    var n := |calls| - 1;
    if j == n {
      assert calls[j := call][..n] == calls[..n];
    } else {
      assert calls[j := call][..n] == calls[..n][j := call];
      NotWaiting(calls[..n], ops[..n], j, call, k);
    }
  }

  lemma OneMoreCall(calls: seq<C.Call>, ops: seq<S.Operation>, call: C.Call, op: S.Operation, k: S.Key)
    requires |ops| == |calls|
    ensures WaitingOps(calls + [call], ops + [op], k)
         == WaitingOps(calls, ops, k) + if call.key == k && call.status == C.Waiting then [op] else []
  {
    assert (calls + [call])[..|calls|] == calls && (ops + [op])[..|ops|] == ops;
  }

  // -------------------------------------------------------------- chains beside the manager

  ghost predicate MatchesFor(c: C.Chains, ops: seq<S.Operation>, m: S.Manager, k: S.Key)
    requires |ops| == |c.calls|
  {
    && WaitingOps(c.calls, ops, k) == m.Pending(k)
    && (k in m.inFlight <==> exists i :: Running(c, k, i))
  }

  /** The calls that wait are the manager's waiting operations, and a call runs exactly while a command is in flight. */
  ghost predicate Matches(c: C.Chains, ops: seq<S.Operation>, m: S.Manager) {
    C.Invariant(c) && |ops| == |c.calls| && forall k :: MatchesFor(c, ops, m, k)
  }

  /** The protocol lets an operation of a key start exactly if the chains let some call of the key begin. */
  lemma StartIsBegin(c: C.Chains, ops: seq<S.Operation>, s: S.System, k: S.Key)
    requires Matches(c, ops, s.manager)
    ensures S.Enabled(s, S.Start(k)) <==> exists j: nat :: Waits(c.calls, k, j) && C.Enabled(c, C.Begin(j))
  {
    assert MatchesFor(c, ops, s.manager, k);
    if j: nat :| Waits(c.calls, k, j) && C.Enabled(c, C.Begin(j)) {
      WaiterIsListed(c.calls, ops, k, j);
      BeginMeansNoneRuns(c, k, j);
    }
    if S.Enabled(s, S.Start(k)) {
      var j := SomebodyWaits(c.calls, ops, k);
      FirstCanBegin(c, k, j);
    }
  }

  lemma BeginMeansNoneRuns(c: C.Chains, k: S.Key, j: nat)
    requires C.Invariant(c) && Waits(c.calls, k, j) && C.Enabled(c, C.Begin(j))
    ensures WaitsFirst(c.calls, k, j) && forall i :: !Running(c, k, i)
  {
    forall i | 0 <= i < |c.calls| && c.calls[i].key == k && i != j
      ensures c.calls[i].status != C.Running && (i < j ==> c.calls[i].status == C.Settled)
    {
      if i < j {
        assert C.Earlier(c, i, j);
        C.EarlierHaveSettled(c, i, j);
      } else {
        assert C.Earlier(c, j, i);
      }
    }
  }

  lemma FirstCanBegin(c: C.Chains, k: S.Key, j: nat)
    requires C.Invariant(c) && WaitsFirst(c.calls, k, j) && forall i :: !Running(c, k, i)
    ensures C.Enabled(c, C.Begin(j))
  {
    var previous := c.calls[j].previous;
    if previous.Some? {
      assert C.Earlier(c, previous.value, j);
      assert !Running(c, k, previous.value) && !Waits(c.calls, k, previous.value);
    }
  }

  // -------------------------------------------------------------- every run of the protocol is one of the chains

  lemma MatchesSame(c: C.Chains, ops: seq<S.Operation>, m: S.Manager, m': S.Manager)
    requires Matches(c, ops, m) && forall k :: m'.Pending(k) == m.Pending(k) && (k in m'.inFlight <==> k in m.inFlight)
    ensures Matches(c, ops, m')
  {
    forall k ensures MatchesFor(c, ops, m', k) {
      assert MatchesFor(c, ops, m, k);
    }
  }

  lemma IssueMatches(c: C.Chains, ops: seq<S.Operation>, m: S.Manager, k: S.Key, op: S.Operation)
    requires Matches(c, ops, m)
    ensures Matches(C.Next(c, C.Issue(k)), ops + [op], S.Enqueue(m, {k}, op))
  {
    C.IssueKeepsInvariant(c, k);
    forall q ensures MatchesFor(C.Next(c, C.Issue(k)), ops + [op], S.Enqueue(m, {k}, op), q) {
      IssueMatchesFor(c, ops, m, k, op, q);
    }
  }

  lemma IssueMatchesFor(c: C.Chains, ops: seq<S.Operation>, m: S.Manager, k: S.Key, op: S.Operation, q: S.Key)
    requires |ops| == |c.calls| && MatchesFor(c, ops, m, q)
    ensures MatchesFor(C.Next(c, C.Issue(k)), ops + [op], S.Enqueue(m, {k}, op), q)
  {
    var c' := C.Next(c, C.Issue(k));
    OneMoreCall(c.calls, ops, c'.calls[|c.calls|], op, q);
    assert forall i :: Running(c', q, i) <==> Running(c, q, i);
  }

  lemma {:induction false} IssueAll(c: C.Chains, ops: seq<S.Operation>, m: S.Manager, keys: set<S.Key>, op: S.Operation)
    returns (steps: seq<C.Step>, c': C.Chains, ops': seq<S.Operation>)
    requires Matches(c, ops, m)
    ensures C.Run(c, steps, c') && Matches(c', ops', S.Enqueue(m, keys, op))
    decreases keys
  {
    if keys == {} {
      steps, c', ops' := [], c, ops;
      MatchesSame(c, ops, m, S.Enqueue(m, {}, op));
    } else {
      var k :| k in keys;
      var front, mid, opsMid := IssueAll(c, ops, m, keys - {k}, op);
      IssueMatches(mid, opsMid, S.Enqueue(m, keys - {k}, op), k, op);
      S.EnqueueOneMore(m, keys - {k}, k, op);
      assert keys - {k} + {k} == keys;
      C.RunOne(mid, C.Issue(k));
      C.RunAppend(c, front, mid, [C.Issue(k)], C.Next(mid, C.Issue(k)));
      steps, c', ops' := front + [C.Issue(k)], C.Next(mid, C.Issue(k)), opsMid + [op];
    }
  }

  /** The call that begins does the operation that the manager starts. */
  lemma BeginsTheFirst(c: C.Chains, ops: seq<S.Operation>, m: S.Manager, k: S.Key, j: nat)
    requires Matches(c, ops, m) && Waits(c.calls, k, j) && C.Enabled(c, C.Begin(j)) && m.Pending(k) != []
    ensures ops[j] == m.Pending(k)[0]
    ensures WaitingOps(C.Next(c, C.Begin(j)).calls, ops, k) == m.Pending(k)[1..]
  {
    assert WaitingOps(c.calls, ops, k) == m.Pending(k) by {
      assert MatchesFor(c, ops, m, k);
    }
    BeginMeansNoneRuns(c, k, j);
    FirstBegins(c.calls, ops, j, C.Next(c, C.Begin(j)).calls[j], k);
    HeadAndTail(ops[j], WaitingOps(C.Next(c, C.Begin(j)).calls, ops, k));
  }

  lemma StartTakesTheFirst(m: S.Manager, k: S.Key)
    requires m.Pending(k) != []
    ensures S.StartNext(m, k).Pending(k) == m.Pending(k)[1..]
  {
  }

  lemma BeginLeavesOthers(c: C.Chains, ops: seq<S.Operation>, m: S.Manager, k: S.Key, j: nat, q: S.Key)
    requires Matches(c, ops, m) && Waits(c.calls, k, j) && C.Enabled(c, C.Begin(j)) && m.Pending(k) != [] && q != k
    ensures MatchesFor(C.Next(c, C.Begin(j)), ops, S.StartNext(m, k), q)
  {
    var c' := C.Next(c, C.Begin(j));
    assert MatchesFor(c, ops, m, q);
    BeginMeansNoneRuns(c, k, j);
    FirstBegins(c.calls, ops, j, c'.calls[j], q);
    S.StartLeavesOthers(m, k, q);
    assert forall i :: Running(c', q, i) <==> Running(c, q, i);
  }

  lemma SettleMatches(c: C.Chains, ops: seq<S.Operation>, m: S.Manager, i: nat, q: S.Key)
    requires C.Invariant(c) && |ops| == |c.calls| && i < |c.calls| && c.calls[i].status == C.Running
    requires WaitingOps(c.calls, ops, q) == m.Pending(q)
    requires if q == c.calls[i].key then q !in m.inFlight else MatchesFor(c, ops, m, q)
    ensures MatchesFor(C.Next(c, C.Settle(i)), ops, m, q)
  {
    var c' := C.Next(c, C.Settle(i));
    NotWaiting(c.calls, ops, i, c'.calls[i], q);
    if q == c.calls[i].key {
      forall n ensures !Running(c', q, n) {
        OnlyOneRuns(c, i, n);
      }
    } else {
      assert forall n :: Running(c', q, n) <==> Running(c, q, n);
    }
  }

  lemma OnlyOneRuns(c: C.Chains, i: nat, n: int)
    requires C.Invariant(c) && i < |c.calls| && c.calls[i].status == C.Running
    ensures Running(c, c.calls[i].key, n) ==> n == i
  {
    assert 0 <= n < i && c.calls[n].key == c.calls[i].key ==> C.Earlier(c, n, i);
    assert i < n < |c.calls| && c.calls[n].key == c.calls[i].key ==> C.Earlier(c, i, n);
  }

  /** Starting an operation is beginning its call, and settling it at once if it awaits no command. */
  lemma StartSimulated(c: C.Chains, ops: seq<S.Operation>, s: S.System, k: S.Key)
    returns (steps: seq<C.Step>, c': C.Chains)
    requires Matches(c, ops, s.manager) && S.Enabled(s, S.Start(k))
    ensures C.Run(c, steps, c') && Matches(c', ops, S.StartNext(s.manager, k))
  {
    StartIsBegin(c, ops, s, k);
    var j: nat :| Waits(c.calls, k, j) && C.Enabled(c, C.Begin(j));
    var m := S.StartNext(s.manager, k);
    var mid := C.Next(c, C.Begin(j));
    C.BeginKeepsInvariant(c, j);
    C.RunOne(c, C.Begin(j));
    BeginsTheFirst(c, ops, s.manager, k, j);
    StartTakesTheFirst(s.manager, k);
    forall q ensures WaitingOps(mid.calls, ops, q) == m.Pending(q) && (q != k ==> MatchesFor(mid, ops, m, q)) {
      if q != k {
        BeginLeavesOthers(c, ops, s.manager, k, j, q);
      }
    }
    assert Running(mid, k, j);
    if k in m.inFlight {
      steps, c' := [C.Begin(j)], mid;
      assert MatchesFor(mid, ops, m, k);
    } else {
      c' := SettledAfter(mid, ops, m, j);
      C.RunAppend(c, [C.Begin(j)], mid, [C.Settle(j)], c');
      steps := [C.Begin(j)] + [C.Settle(j)];
    }
  }

  lemma SettledAfter(c: C.Chains, ops: seq<S.Operation>, m: S.Manager, i: nat) returns (c': C.Chains)
    requires C.Invariant(c) && |ops| == |c.calls| && i < |c.calls| && c.calls[i].status == C.Running
    requires forall q ::
               WaitingOps(c.calls, ops, q) == m.Pending(q) && (q != c.calls[i].key ==> MatchesFor(c, ops, m, q))
    requires c.calls[i].key !in m.inFlight
    ensures C.Run(c, [C.Settle(i)], c') && Matches(c', ops, m)
  {
    c' := C.Next(c, C.Settle(i));
    C.SettleKeepsInvariant(c, i);
    C.RunOne(c, C.Settle(i));
    forall q ensures MatchesFor(c', ops, m, q) {
      SettleMatches(c, ops, m, i, q);
    }
  }

  /** A command that settles lets its call settle, unless the call goes on to another command. */
  lemma CommandSimulated(c: C.Chains, ops: seq<S.Operation>, m: S.Manager, k: S.Key, m': S.Manager)
    returns (steps: seq<C.Step>, c': C.Chains)
    requires Matches(c, ops, m) && k in m.inFlight
    requires forall q :: m'.Pending(q) == m.Pending(q) && (q != k ==> (q in m'.inFlight <==> q in m.inFlight))
    ensures C.Run(c, steps, c') && Matches(c', ops, m')
  {
    if k in m'.inFlight {
      steps, c' := [], c;
      MatchesSame(c, ops, m, m');
    } else {
      assert MatchesFor(c, ops, m, k);
      var i :| Running(c, k, i);
      forall q ensures WaitingOps(c.calls, ops, q) == m'.Pending(q) && (q != k ==> MatchesFor(c, ops, m', q)) {
        assert MatchesFor(c, ops, m, q);
      }
      c' := SettledAfter(c, ops, m', i);
      steps := [C.Settle(i)];
    }
  }

  lemma NextSimulated(c: C.Chains, ops: seq<S.Operation>, s: S.System, e: S.Event)
    returns (steps: seq<C.Step>, c': C.Chains, ops': seq<S.Operation>)
    requires Matches(c, ops, s.manager) && S.Enabled(s, e)
    ensures C.Run(c, steps, c') && Matches(c', ops', S.Next(s, e).manager)
  {
    ops' := ops;
    match e
    case Register(id, keys) => steps, c', ops' := IssueAll(c, ops, s.manager, keys, S.Increment);
    case Cleanup(id) => steps, c', ops' := IssueAll(c, ops, s.manager, s.connections[id], S.Decrement);
    case Start(k) => steps, c' := StartSimulated(c, ops, s, k);
    case Ack(k) => steps, c' := CommandSimulated(c, ops, s.manager, k, S.Next(s, e).manager);
    case Reject(k, _) => steps, c' := CommandSimulated(c, ops, s.manager, k, S.Next(s, e).manager);
    case Close =>
      steps, c' := [], c;
      MatchesSame(c, ops, s.manager, S.Next(s, e).manager);
    case Ready =>
      var idle := s.manager.(redisDisconnected := false,
                             subscriptionState := s.manager.subscriptionState + S.AllIdle(s.manager.demandCount.Keys));
      MatchesSame(c, ops, s.manager, idle);
      steps, c', ops' := IssueAll(c, ops, idle, s.manager.demandCount.Keys, S.Reconcile);
  }

  lemma {:induction false} RunSimulated(c: C.Chains, ops: seq<S.Operation>, s: S.System, events: seq<S.Event>,
                                        last: S.System)
    returns (steps: seq<C.Step>, c': C.Chains, ops': seq<S.Operation>)
    requires Matches(c, ops, s.manager) && S.Run(s, events, last)
    ensures C.Run(c, steps, c') && Matches(c', ops', last.manager)
    decreases events
  {
    if events == [] {
      steps, c', ops' := [], c, ops;
    } else {
      var first, mid, opsMid := NextSimulated(c, ops, s, events[0]);
      var rest;
      rest, c', ops' := RunSimulated(mid, opsMid, S.Next(s, events[0]), events[1..], last);
      C.RunAppend(c, first, mid, rest, c');
      steps := first + rest;
    }
  }

  /** Every run of the protocol is matched by a run of the promise chains, so its operations run one at a time and in
      call order for each key, and after it an operation can start exactly if its promise has settled. */
  lemma ProtocolRunsOnChains(s: S.System, events: seq<S.Event>, last: S.System)
    returns (steps: seq<C.Step>, chains: C.Chains, ops: seq<S.Operation>)
    requires S.Initial(s) && S.Run(s, events, last)
    ensures C.Run(C.Chains([], map[]), steps, chains) && Matches(chains, ops, last.manager)
    ensures forall k :: S.Enabled(last, S.Start(k)) <==>
            exists j: nat :: Waits(chains.calls, k, j) && C.Enabled(chains, C.Begin(j))
  {
    var none := C.Chains([], map[]);
    assert Matches(none, [], s.manager) by {
      assert forall k, i :: !Running(none, k, i);
    }
    steps, chains, ops := RunSimulated(none, [], s, events, last);
    forall k ensures S.Enabled(last, S.Start(k)) <==>
      exists j: nat :: Waits(chains.calls, k, j) && C.Enabled(chains, C.Begin(j))
    {
      StartIsBegin(chains, ops, last, k);
    }
  }
}
