/** How chained promises run the operations of one key one at a time and in call order.

    Every call remembers the promise it found in the table under its key and runs when that promise has
    settled; a settling promise removes itself from the table if it is still the one recorded there. */
module SerializedOperations {
  import opened Collections

  type Key = string

  datatype Status = Waiting | Running | Settled

  datatype Call = Call(key: Key, previous: Option<nat>, status: Status)

  // Calls are numbered in the order in which they were made; `tail` is the table of last promises.
  datatype Chains = Chains(calls: seq<Call>, tail: map<Key, nat>)

  datatype Step = Issue(key: Key) | Begin(call: nat) | Settle(call: nat)

  predicate Enabled(c: Chains, step: Step) {
    match step
    case Issue(_) => true
    case Begin(i) =>
      && i < |c.calls| && c.calls[i].status == Waiting
      && (c.calls[i].previous.Some? ==>
            c.calls[i].previous.value < |c.calls| && c.calls[c.calls[i].previous.value].status == Settled)
    case Settle(i) => i < |c.calls| && c.calls[i].status == Running
  }

  function Next(c: Chains, step: Step): Chains
    requires Enabled(c, step)
  {
    match step
    case Issue(k) =>
      Chains(c.calls + [Call(k, if k in c.tail then Some(c.tail[k]) else None, Waiting)], c.tail[k := |c.calls|])
    case Begin(i) => c.(calls := c.calls[i := c.calls[i].(status := Running)])
    case Settle(i) =>
      var k := c.calls[i].key;
      Chains(c.calls[i := c.calls[i].(status := Settled)],
             if k in c.tail && c.tail[k] == i then c.tail - {k} else c.tail)
  }

  predicate Earlier(c: Chains, i: int, j: int) {
    0 <= i < j < |c.calls| && c.calls[i].key == c.calls[j].key
  }

  /** The recorded promise is the key's last call, and an unrecorded key has nothing unsettled. */
  ghost predicate TailIsLast(c: Chains) {
    && (forall k | k in c.tail :: c.tail[k] < |c.calls| && c.calls[c.tail[k]].key == k)
    && (forall i: nat | i < |c.calls| && c.calls[i].key in c.tail :: i <= c.tail[c.calls[i].key])
    && (forall i: nat | i < |c.calls| && c.calls[i].key !in c.tail :: c.calls[i].status == Settled)
  }

  /** A call waits for the call just before it, unless all calls before it had settled already. */
  ghost predicate LinkedInOrder(c: Chains) {
    && (forall j: nat | j < |c.calls| && c.calls[j].previous.Some? :: Earlier(c, c.calls[j].previous.value, j))
    && (forall i, j | Earlier(c, i, j) && c.calls[j].previous.Some? :: i <= c.calls[j].previous.value)
    && (forall i, j | Earlier(c, i, j) && c.calls[j].previous.None? :: c.calls[i].status == Settled)
  }

  /** Once a call has begun, every earlier call of its key has settled. */
  ghost predicate OneAtATime(c: Chains) {
    forall i, j | Earlier(c, i, j) && c.calls[j].status != Waiting :: c.calls[i].status == Settled
  }

  ghost predicate Invariant(c: Chains) {
    TailIsLast(c) && LinkedInOrder(c) && OneAtATime(c)
  }

  lemma IssueKeepsInvariant(c: Chains, k: Key)
    requires Invariant(c)
    ensures Invariant(Next(c, Issue(k)))
  {
    var c' := Next(c, Issue(k));
    forall i, j | Earlier(c', i, j)
      ensures c'.calls[j].previous.Some? ==> i <= c'.calls[j].previous.value
      ensures c'.calls[j].previous.None? ==> c'.calls[i].status == Settled
    {
      assert j < |c.calls| ==> Earlier(c, i, j);
    }
    forall j: nat | j < |c'.calls| && c'.calls[j].previous.Some? ensures Earlier(c', c'.calls[j].previous.value, j) {
      assert j < |c.calls| ==> Earlier(c, c.calls[j].previous.value, j);
    }
    forall i, j | Earlier(c', i, j) && c'.calls[j].status != Waiting ensures c'.calls[i].status == Settled {
      assert Earlier(c, i, j);
    }
  }

  /** A step that only changes statuses keeps the links. */
  lemma SameLinks(c: Chains, c': Chains)
    requires LinkedInOrder(c) && |c'.calls| == |c.calls|
    requires forall i: nat | i < |c.calls| ::
               c'.calls[i].key == c.calls[i].key && c'.calls[i].previous == c.calls[i].previous
               && (c.calls[i].status == Settled ==> c'.calls[i].status == Settled)
    ensures LinkedInOrder(c')
  {
    forall i, j | Earlier(c', i, j)
      ensures c'.calls[j].previous.Some? ==> i <= c'.calls[j].previous.value
      ensures c'.calls[j].previous.None? ==> c'.calls[i].status == Settled
    {
      assert Earlier(c, i, j);
    }
    forall j: nat | j < |c'.calls| && c'.calls[j].previous.Some? ensures Earlier(c', c'.calls[j].previous.value, j) {
      assert Earlier(c, c.calls[j].previous.value, j);
    }
  }

  lemma BeginKeepsInvariant(c: Chains, n: nat)
    requires Invariant(c) && Enabled(c, Begin(n))
    ensures Invariant(Next(c, Begin(n)))
  {
    var c' := Next(c, Begin(n));
    SameLinks(c, c');
    forall i, j | Earlier(c', i, j) && c'.calls[j].status != Waiting ensures c'.calls[i].status == Settled {
      assert Earlier(c, i, j);
      if j == n {
        EarlierHaveSettled(c, i, n);
      } else {
        assert c.calls[i].status == Settled;
      }
    }
  }

  /** A call that may begin has only settled calls of its key before it. */
  lemma EarlierHaveSettled(c: Chains, i: int, n: nat)
    requires LinkedInOrder(c) && OneAtATime(c) && Enabled(c, Begin(n)) && Earlier(c, i, n)
    ensures c.calls[i].status == Settled
  {
    if c.calls[n].previous.Some? {
      var p := c.calls[n].previous.value;
      assert i < p ==> Earlier(c, i, p);
    }
  }

  lemma SettleKeepsInvariant(c: Chains, n: nat)
    requires Invariant(c) && Enabled(c, Settle(n))
    ensures Invariant(Next(c, Settle(n)))
  {
    var c' := Next(c, Settle(n));
    SameLinks(c, c');
    forall i, j | Earlier(c', i, j) && c'.calls[j].status != Waiting ensures c'.calls[i].status == Settled {
      assert Earlier(c, i, j);
    }
    forall i: nat | i < |c.calls| && c.calls[i].key !in c'.tail ensures c'.calls[i].status == Settled {
      if i < n && c.calls[i].key == c.calls[n].key {
        assert Earlier(c, i, n);
      }
    }
  }

  lemma NextKeepsInvariant(c: Chains, step: Step)
    requires Invariant(c) && Enabled(c, step)
    ensures Invariant(Next(c, step))
  {
    match step
    case Issue(k) => IssueKeepsInvariant(c, k);
    case Begin(i) => BeginKeepsInvariant(c, i);
    case Settle(i) => SettleKeepsInvariant(c, i);
  }

  predicate Run(c: Chains, steps: seq<Step>, last: Chains)
    decreases steps
  {
    if steps == [] then c == last
    else Enabled(c, steps[0]) && Run(Next(c, steps[0]), steps[1..], last)
  }

  lemma {:induction false} RunAppend(c: Chains, a: seq<Step>, mid: Chains, b: seq<Step>, last: Chains)
    requires Run(c, a, mid) && Run(mid, b, last)
    ensures Run(c, a + b, last)
    decreases a
  {
    if a == [] {
      assert a + b == b;
    } else {
      RunAppend(Next(c, a[0]), a[1..], mid, b, last);
      assert (a + b)[1..] == a[1..] + b;
    }
  }

  lemma RunOne(c: Chains, step: Step)
    requires Enabled(c, step)
    ensures Run(c, [step], Next(c, step))
  {
    assert [step][1..] == [];
    assert Run(Next(c, step), [], Next(c, step));
  }

  lemma {:induction false} RunKeepsInvariant(c: Chains, steps: seq<Step>, last: Chains)
    requires Invariant(c) && Run(c, steps, last)
    ensures Invariant(last)
    decreases steps
  {
    if steps != [] {
      NextKeepsInvariant(c, steps[0]);
      RunKeepsInvariant(Next(c, steps[0]), steps[1..], last);
    }
  }

  /** In every run at most one operation of a key is running, the begun ones form a prefix of the calls for
      that key, and a waiting one may begin exactly when all the earlier ones have settled. */
  lemma OperationsRunInCallOrder(steps: seq<Step>, last: Chains)
    requires Run(Chains([], map[]), steps, last)
    ensures forall i, j | Earlier(last, i, j) && last.calls[j].status != Waiting :: last.calls[i].status == Settled
    ensures forall j: nat | j < |last.calls| && last.calls[j].status == Waiting ::
              Enabled(last, Begin(j)) <==> (forall i | Earlier(last, i, j) :: last.calls[i].status == Settled)
  {
    RunKeepsInvariant(Chains([], map[]), steps, last);
    forall j: nat | j < |last.calls| && last.calls[j].status == Waiting
      ensures Enabled(last, Begin(j)) <==> (forall i | Earlier(last, i, j) :: last.calls[i].status == Settled)
    {
      if Enabled(last, Begin(j)) {
        forall i | Earlier(last, i, j) ensures last.calls[i].status == Settled {
          EarlierHaveSettled(last, i, j);
        }
      }
    }
  }
}
