/** The pool invariant over every run, and what the pool never loses. */
module TxPoolProofs {
  import opened Wrappers
  import opened TxPool

  // ---------- checkQueue ----------

  /** `checkQueue` fills each sender's nonces without a gap up to its reach. */
  lemma Filled(p: Pool, q: Pool, a: Addr, n: nat)
    requires p.managed.Some? && Covered(p) && Checked(p, q) && Filed(p.pending, p.queue)
    requires Nonce(p.chain, a) <= n < Reach(LineOf(p, a))
    ensures HasPending(q.pending, a, n)
  {
    if n < Guess(p, a) {
      assert HasPending(p.pending, a, n);
      var h :| From(p.pending, h, a) && p.pending[h].nonce == n;
      assert From(q.pending, h, a);
    } else {
      assert n in LiveNonces(p.chain, a, Of(p.queue, a));
      var h :| Holds(p.queue, a, h) && Live(p.chain, a, Of(p.queue, a)[h]) && Of(p.queue, a)[h].nonce == n;
      assert Promoted(LineOf(p, a), h);
      assert From(q.pending, h, a);
    }
  }

  /** The guessed nonce never passes the reach. */
  lemma GuessBelowReach(p: Pool, a: Addr, g: nat)
    requires p.managed.Some? && GuessedFor(LineOf(p, a), g) && Nonce(p.chain, a) <= Guess(p, a)
    ensures Nonce(p.chain, a) <= g <= Reach(LineOf(p, a))
  {
    if exists h: Hash :: Promoted(LineOf(p, a), h) {
      var h :| Promoted(LineOf(p, a), h) && Of(p.queue, a)[h].nonce + 1 == g;
    }
  }

  lemma CheckedFiled(p: Pool, q: Pool)
    requires Filed(p.pending, p.queue) && p.managed.Some? && Checked(p, q)
    ensures Filed(q.pending, q.queue)
  {
    forall h: Hash | h in q.pending ensures q.pending[h].hash == h && q.pending[h].sender.Some? {
      PromotedFiled(p, q, h);
    }
    forall a: Addr, h: Hash | Holds(q.queue, a, h)
      ensures Of(q.queue, a)[h].hash == h && Of(q.queue, a)[h].sender == Some(a) && h !in q.pending
    {
      KeptFiled(p, q, a, h);
    }
    forall a: Addr, b: Addr, h: Hash | Holds(q.queue, a, h) && Holds(q.queue, b, h) ensures a == b {
      KeptFiled(p, q, a, h);
      KeptFiled(p, q, b, h);
    }
  }

  lemma PromotedFiled(p: Pool, q: Pool, h: Hash)
    requires Filed(p.pending, p.queue) && p.managed.Some? && Checked(p, q) && h in q.pending
    ensures q.pending[h].hash == h && q.pending[h].sender.Some?
  {
    if h !in p.pending {
      var a := NewlyPending(p, q, h);
      assert Holds(p.queue, a, h);
    }
  }

  lemma NewlyPending(p: Pool, q: Pool, h: Hash) returns (a: Addr)
    requires p.managed.Some? && Checked(p, q) && h in q.pending && h !in p.pending
    ensures Holds(p.queue, a, h) && q.pending[h] == Of(p.queue, a)[h]
  {
    a := q.pending[h].sender.value;
    assert Promoted(LineOf(p, a), h);
  }

  lemma KeptFiled(p: Pool, q: Pool, a: Addr, h: Hash)
    requires Filed(p.pending, p.queue) && p.managed.Some? && Checked(p, q) && Holds(q.queue, a, h)
    ensures Holds(p.queue, a, h)
    ensures Of(q.queue, a)[h].hash == h && Of(q.queue, a)[h].sender == Some(a) && h !in q.pending
  {
    KeptIsWaiting(p, q, a, h);
    if h in q.pending {
      PromotedSender(p, q, a, h);
    }
  }

  lemma KeptIsWaiting(p: Pool, q: Pool, a: Addr, h: Hash)
    requires p.managed.Some? && Checked(p, q) && Holds(q.queue, a, h)
    ensures Holds(p.queue, a, h) && Of(q.queue, a)[h] == Of(p.queue, a)[h] && Of(p.queue, a)[h].nonce > Reach(LineOf(p, a))
  {
    assert CheckedFor(p, q, a);
    assert h in Waiting(LineOf(p, a));
  }

  /** A queued hash that turns up in pending was promoted for its sender. */
  lemma PromotedSender(p: Pool, q: Pool, a: Addr, h: Hash)
    requires Filed(p.pending, p.queue) && p.managed.Some? && Checked(p, q)
    requires Holds(p.queue, a, h) && h in q.pending
    ensures h !in p.pending && q.pending[h].sender == Some(a) && Promoted(LineOf(p, a), h)
  {
    assert Holds(p.queue, a, h);
    var b := q.pending[h].sender.value;
    assert Promoted(LineOf(p, b), h);
    assert Holds(p.queue, b, h);
  }

  lemma CheckedLive(p: Pool, q: Pool, h: Hash, a: Addr)
    requires Filed(p.pending, p.queue) && AllLive(p.chain, p.pending) && p.managed.Some? && Checked(p, q)
    requires From(q.pending, h, a)
    ensures Live(q.chain, a, q.pending[h])
    ensures h !in p.pending ==> q.pending[h].nonce < Reach(LineOf(p, a))
  {
    if h in p.pending {
      assert From(p.pending, h, a);
    } else {
      assert Promoted(LineOf(p, a), h);
    }
  }

  lemma CheckedGapless(p: Pool, q: Pool)
    requires Inv(p) && p.managed.Some? && Checked(p, q)
    ensures Gapless(q.chain, q.pending)
  {
    forall h: Hash, a: Addr, n: nat | From(q.pending, h, a) && Nonce(q.chain, a) <= n < q.pending[h].nonce
      ensures HasPending(q.pending, a, n)
    {
      if h in p.pending {
        assert From(p.pending, h, a);
        PendingStays(p, q, a, n);
      } else {
        CheckedLive(p, q, h, a);
        Filled(p, q, a, n);
      }
    }
  }

  lemma PendingStays(p: Pool, q: Pool, a: Addr, n: nat)
    requires HasPending(p.pending, a, n)
    requires forall h: Hash :: h in p.pending ==> h in q.pending && q.pending[h] == p.pending[h]
    ensures HasPending(q.pending, a, n)
  {
    var h :| From(p.pending, h, a) && p.pending[h].nonce == n;
    assert From(q.pending, h, a);
  }

  lemma CheckedCovered(p: Pool, q: Pool)
    requires Inv(p) && p.managed.Some? && Checked(p, q)
    ensures Covered(q)
  {
    forall a: Addr ensures Nonce(q.chain, a) <= Guess(q, a) <= Reach(LineOf(p, a)) {
      assert CheckedFor(p, q, a);
      GuessBelowReach(p, a, Guess(q, a));
    }
    forall a: Addr, n: nat | Nonce(q.chain, a) <= n < Guess(q, a) ensures HasPending(q.pending, a, n) {
      Filled(p, q, a, n);
    }
  }

  lemma CheckedKeeps(p: Pool, q: Pool)
    requires Inv(p) && p.managed.Some? && Checked(p, q)
    ensures Inv(q)
  {
    CheckedFiled(p, q);
    CheckedGapless(p, q);
    CheckedCovered(p, q);
    forall h: Hash, a: Addr | From(q.pending, h, a) ensures Live(q.chain, a, q.pending[h]) {
      CheckedLive(p, q, h, a);
    }
  }

  // ---------- validatePool ----------

  lemma ValidatedFiled(p: Pool, q: Pool)
    requires Filed(p.pending, p.queue) && Validated(p, q)
    ensures Filed(q.pending, q.queue)
  {
    forall h: Hash | h in q.pending ensures q.pending[h].hash == h && q.pending[h].sender.Some? {
      assert From(p.pending, h, p.pending[h].sender.value);
    }
    forall a: Addr, h: Hash | Holds(q.queue, a, h)
      ensures Of(q.queue, a)[h].hash == h && Of(q.queue, a)[h].sender == Some(a) && h !in q.pending
    {
      assert Returned(p, q, a, h);
    }
    forall a: Addr, b: Addr, h: Hash | Holds(q.queue, a, h) && Holds(q.queue, b, h) ensures a == b {
      assert Returned(p, q, a, h) && Returned(p, q, b, h);
    }
  }

  /** What stays pending is live and below every gap. */
  lemma ValidatedStays(p: Pool, q: Pool, h: Hash, a: Addr)
    requires Validated(p, q) && From(q.pending, h, a) && Filed(p.pending, p.queue)
    ensures From(p.pending, h, a) && q.pending[h] == p.pending[h]
    ensures Live(p.chain, a, p.pending[h]) && !Postponed(p.chain, p.pending, a, p.pending[h])
  {
    var b := p.pending[h].sender.value;
    assert From(p.pending, h, b);
  }

  /** Validation leaves no gap, given that there was none above an older chain
      nonce. */
  lemma ValidatedGapless(c: Chain, p: Pool, q: Pool)
    requires Filed(p.pending, p.queue) && Validated(p, q)
    requires Gapless(c, p.pending) && forall a: Addr :: Nonce(c, a) <= Nonce(p.chain, a)
    ensures Gapless(q.chain, q.pending) && AllLive(q.chain, q.pending)
  {
    forall h: Hash, a: Addr | From(q.pending, h, a) ensures Live(q.chain, a, q.pending[h]) {
      ValidatedStays(p, q, h, a);
    }
    forall h: Hash, a: Addr, n: nat | From(q.pending, h, a) && Nonce(q.chain, a) <= n < q.pending[h].nonce
      ensures HasPending(q.pending, a, n)
    {
      ValidatedStays(p, q, h, a);
      assert HasPending(p.pending, a, n);
      var k :| From(p.pending, k, a) && p.pending[k].nonce == n;
      assert !Broke(p.chain, a, p.pending[k]);
      assert !Postponed(p.chain, p.pending, a, p.pending[k]);
      assert From(q.pending, k, a);
    }
  }

  lemma RebasedKeeps(p: Pool, q: Pool)
    requires Filed(p.pending, p.queue) && Gapless(p.chain, p.pending) && AllLive(p.chain, p.pending) && Rebased(p, q)
    ensures Inv(q)
  {
    forall a: Addr, n: nat | Nonce(q.chain, a) <= n < Guess(q, a) ensures HasPending(q.pending, a, n) {
      assert HasPending(p.pending, a, Guess(q, a) - 1);
      var h :| From(p.pending, h, a) && p.pending[h].nonce == Guess(q, a) - 1;
      if n < Guess(q, a) - 1 {
        assert HasPending(p.pending, a, n);
      }
    }
  }

  /** `resetState` restores the invariant over a chain whose nonces have not gone
      back. */
  lemma ResetKeeps(c: Chain, p: Pool, q: Pool)
    requires Filed(p.pending, p.queue) && Gapless(c, p.pending) && forall a: Addr :: Nonce(c, a) <= Nonce(p.chain, a)
    requires Reset(p, q)
    ensures Inv(q) && q.managed.Some? && q.chain == p.chain
  {
    var v, r :| Validated(p, v) && Rebased(v, r) && Checked(r, q);
    ValidatedFiled(p, v);
    ValidatedGapless(c, p, v);
    RebasedKeeps(v, r);
    CheckedKeeps(r, q);
  }

  lemma CheckedQueueKeeps(p: Pool, q: Pool)
    requires Inv(p) && CheckedQueue(p, q)
    ensures Inv(q) && q.managed.Some?
  {
    if p.managed.Some? {
      CheckedKeeps(p, q);
    } else {
      var r :| Reset(p, r) && r.managed.Some? && Checked(r, q);
      ResetKeeps(p.chain, p, r);
      CheckedKeeps(r, q);
    }
  }

  /** On a pool that satisfies the invariant `validatePool` changes nothing. */
  lemma ValidatedIdle(p: Pool, q: Pool)
    requires Inv(p) && Validated(p, q)
    ensures q.pending == p.pending && (forall a: Addr :: Of(q.queue, a) == Of(p.queue, a)) && Inv(q)
  {
    forall h: Hash | h in p.pending ensures h in q.pending && q.pending[h] == p.pending[h] {
      var a := p.pending[h].sender.value;
      assert From(p.pending, h, a);
      assert !Postponed(p.chain, p.pending, a, p.pending[h]);
    }
    ValidatedFiled(p, q);
    assert q.pending.Keys == p.pending.Keys && q.pending == p.pending;
    forall a: Addr ensures Of(q.queue, a) == Of(p.queue, a) {
      forall h: Hash | Holds(q.queue, a, h) ensures Holds(p.queue, a, h) && Of(q.queue, a)[h] == Of(p.queue, a)[h] {
        assert Returned(p, q, a, h);
      }
      assert Of(q.queue, a).Keys == Of(p.queue, a).Keys;
    }
    assert p.managed.Some? ==> forall a: Addr :: Guess(q, a) == Guess(p, a);
  }

  // ---------- whole runs ----------

  /** A hash names one transaction. */
  ghost predicate Consistent(p: Pool, tx: Tx) {
    forall a: Addr :: Holds(p.queue, a, tx.hash) ==> Of(p.queue, a)[tx.hash] == tx
  }

  lemma EnqueueFiled(p: Pool, tx: Tx, a: Addr)
    requires Filed(p.pending, p.queue) && Consistent(p, tx) && tx.sender == Some(a) && tx.hash !in p.pending
    ensures Filed(p.pending, Enqueue(p, a, tx).queue)
  {
    var queue := Enqueue(p, a, tx).queue;
    assert forall b: Addr, h: Hash :: Holds(queue, b, h) <==> Holds(p.queue, b, h) || (b == a && h == tx.hash);
    assert forall b: Addr :: Of(queue, b) == if b == a then Of(p.queue, a)[tx.hash := tx] else Of(p.queue, b);
  }

  lemma AddOneKeeps(p: Pool, tx: Tx)
    requires Inv(p) && Consistent(p, tx)
    ensures Inv(AddOne(p, tx)) && AddOne(p, tx).chain == p.chain
  {
    if Reject(p, tx).None? {
      EnqueueFiled(p, tx, tx.sender.value);
      assert p.managed.Some? ==> forall a: Addr :: Guess(AddOne(p, tx), a) == Guess(p, a);
    }
  }

  ghost predicate AllConsistent(p: Pool, txs: seq<Tx>) {
    && (forall i :: 0 <= i < |txs| ==> Consistent(p, txs[i]))
    && (forall i, j :: 0 <= i < |txs| && 0 <= j < |txs| && txs[i].hash == txs[j].hash ==> txs[i] == txs[j])
  }

  lemma {:induction false} AddEachKeeps(p: Pool, txs: seq<Tx>)
    requires Inv(p) && AllConsistent(p, txs)
    ensures Inv(AddEach(p, txs))
    ensures forall a: Addr, h: Hash :: Holds(AddEach(p, txs).queue, a, h) ==> Origin(p, txs, a, h, Of(AddEach(p, txs).queue, a)[h])
    decreases |txs|
  {
    if txs != [] {
      var init, tx := txs[..|txs| - 1], txs[|txs| - 1];
      AddEachKeeps(p, init);
      var r := AddEach(p, init);
      forall a: Addr | Holds(r.queue, a, tx.hash) ensures Of(r.queue, a)[tx.hash] == tx {
        OriginIs(p, init, txs, a, tx, Of(r.queue, a)[tx.hash]);
      }
      AddOneKeeps(r, tx);
      forall a: Addr, h: Hash | Holds(AddEach(p, txs).queue, a, h) ensures Origin(p, txs, a, h, Of(AddEach(p, txs).queue, a)[h]) {
        AddEachOrigin(p, txs, a, h);
      }
    }
  }

  /** `tx` queued under `h` was queued before or is one of the added ones. */
  ghost predicate Origin(p: Pool, txs: seq<Tx>, a: Addr, h: Hash, tx: Tx) {
    || (Holds(p.queue, a, h) && tx == Of(p.queue, a)[h])
    || exists i :: 0 <= i < |txs| && txs[i].hash == h && tx == txs[i]
  }

  lemma OriginIs(p: Pool, init: seq<Tx>, txs: seq<Tx>, a: Addr, tx: Tx, found: Tx)
    requires AllConsistent(p, txs) && txs != [] && init == txs[..|txs| - 1] && tx == txs[|txs| - 1]
    requires Origin(p, init, a, tx.hash, found)
    ensures found == tx
  {
    assert Consistent(p, txs[|txs| - 1]);
    if i :| 0 <= i < |init| && init[i].hash == tx.hash && found == init[i] {
      assert init[i] == txs[i];
    }
  }

  lemma AddEachOrigin(p: Pool, txs: seq<Tx>, a: Addr, h: Hash)
    requires txs != [] && Holds(AddEach(p, txs).queue, a, h)
    requires var r := AddEach(p, txs[..|txs| - 1]);
             Holds(r.queue, a, h) ==> Origin(p, txs[..|txs| - 1], a, h, Of(r.queue, a)[h])
    ensures Origin(p, txs, a, h, Of(AddEach(p, txs).queue, a)[h])
  {
    var init, tx := txs[..|txs| - 1], txs[|txs| - 1];
    var r, q := AddEach(p, init), AddEach(p, txs);
    if Holds(r.queue, a, h) && Of(q.queue, a)[h] == Of(r.queue, a)[h] {
      if i :| 0 <= i < |init| && init[i].hash == h && Of(r.queue, a)[h] == init[i] {
        assert txs[i] == init[i];
      }
    } else {
      assert txs[|txs| - 1].hash == h && Of(q.queue, a)[h] == txs[|txs| - 1];
    }
  }

  /** What the outside world guarantees of an event: hashes name one
      transaction, and account nonces do not go back. */
  ghost predicate Fair(p: Pool, e: Event) {
    match e
    case Add(tx) => Consistent(p, tx)
    case AddTransactions(txs) => AllConsistent(p, txs)
    case GetTransactions => true
    case NewHead(c, _) => forall a: Addr :: Nonce(p.chain, a) <= Nonce(c, a)
    case GasPrice(_) => true
  }

  /** Every public operation and every new head keep the pool invariant. */
  lemma StepKeeps(p: Pool, e: Event, q: Pool)
    requires Inv(p) && Fair(p, e) && Step(p, e, q)
    ensures Inv(q)
  {
    match e
    case Add(tx) =>
      AddOneKeeps(p, tx);
      if Reject(p, tx).None? {
        CheckedQueueKeeps(AddOne(p, tx), q);
      }
    case AddTransactions(txs) =>
      AddEachKeeps(p, txs);
      CheckedQueueKeeps(AddEach(p, txs), q);
    case GetTransactions =>
      var r :| CheckedQueue(p, r) && Validated(r, q);
      CheckedQueueKeeps(p, r);
      ValidatedIdle(r, q);
    case NewHead(c, limit) =>
      ResetKeeps(p.chain, p.(chain := c, gasLimit := limit), q);
    case GasPrice(price) =>
      assert p.managed.Some? ==> forall a: Addr :: Guess(q, a) == Guess(p, a);
  }

  /** A run: consecutive states related by fair events. */
  ghost predicate Run(ps: seq<Pool>, es: seq<Event>) {
    && |ps| == |es| + 1
    && forall i :: 0 <= i < |es| ==> Fair(ps[i], es[i]) && Step(ps[i], es[i], ps[i + 1])
  }

  /** The pool invariant holds in every state of every run. */
  lemma {:induction false} RunKeeps(ps: seq<Pool>, es: seq<Event>, n: nat)
    requires Run(ps, es) && Inv(ps[0]) && n < |ps|
    ensures Inv(ps[n])
  {
    if n > 0 {
      RunKeeps(ps, es, n - 1);
      StepKeeps(ps[n - 1], es[n - 1], ps[n]);
    }
  }

  /** A new pool, as `NewTxPool` makes it. */
  lemma EmptyPool(p: Pool)
    requires p.pending == map[] && p.queue == map[] && p.managed.None?
    ensures Inv(p)
  {
  }

  // ---------- what is never lost ----------

  /** After `checkQueue` every queued nonce exceeds the guessed nonce and each
      queue holds between 1 and 64 transactions. */
  lemma CheckedShape(p: Pool, q: Pool, a: Addr)
    requires Inv(p) && p.managed.Some? && Checked(p, q) && a in q.queue
    ensures 1 <= |q.queue[a]| <= 64
    ensures forall h: Hash :: h in q.queue[a] ==> q.queue[a][h].nonce > Guess(q, a)
  {
    assert CheckedFor(p, q, a);
    GuessBelowReach(p, a, Guess(q, a));
    forall h: Hash | h in q.queue[a] ensures q.queue[a][h].nonce > Guess(q, a) {
      KeptIsWaiting(p, q, a, h);
    }
    if |Waiting(LineOf(p, a))| <= MAX_QUEUED {
      assert |q.queue[a]| == |q.queue[a].Keys|;
    }
    assert q.queue[a] != map[];
  }

  /** What becomes of a queued transaction in its sender's queue: promoted,
      kept, dead, or cut because 64 others with no higher nonce are kept. */
  ghost predicate Accounted(l: Line, kept: Txs, h: Hash)
    requires h in l.txs
  {
    || Promoted(l, h)
    || (h in kept && kept[h] == l.txs[h])
    || !Live(l.chain, l.a, l.txs[h])
    || (|kept| == 64 && forall k: Hash :: k in kept ==> kept[k].nonce <= l.txs[h].nonce)
  }

  lemma LineLosesNothing(l: Line, kept: Txs, h: Hash)
    requires KeptFor(l, kept) && h in l.txs
    ensures Accounted(l, kept, h)
  {
    if Live(l.chain, l.a, l.txs[h]) && !Promoted(l, h) {
      NotAtReach(l, h);
      WaitingKept(l, kept, h, Waiting(l));
    }
  }

  lemma NotAtReach(l: Line, h: Hash)
    requires h in l.txs && Live(l.chain, l.a, l.txs[h])
    ensures l.txs[h].nonce != Reach(l)
  {
    assert l.txs[h].nonce in LiveNonces(l.chain, l.a, l.txs);
  }

  lemma WaitingKept(l: Line, kept: Txs, h: Hash, waiting: set<Hash>)
    requires KeptFor(l, kept) && waiting == Waiting(l) && h in waiting
    ensures (h in kept && kept[h] == l.txs[h]) ||
            (|kept| == 64 && forall k: Hash :: k in kept ==> kept[k].nonce <= l.txs[h].nonce)
  {
  }

  lemma SenderLosesNothing(p: Pool, q: Pool, a: Addr, h: Hash)
    requires p.managed.Some? && Checked(p, q) && Holds(p.queue, a, h)
    ensures Accounted(LineOf(p, a), Of(q.queue, a), h)
  {
    assert CheckedFor(p, q, a);
    LineLosesNothing(LineOf(p, a), Of(q.queue, a), h);
  }

  lemma PromotedIsPending(p: Pool, q: Pool, a: Addr, h: Hash)
    requires p.managed.Some? && Checked(p, q) && Promoted(LineOf(p, a), h)
    ensures h in q.pending && q.pending[h] == Of(p.queue, a)[h]
  {
  }

  /** `checkQueue` drops a queued transaction only for a past nonce, for lack of
      funds, or because 64 others with no higher nonce are kept. */
  lemma CheckedLosesNothing(p: Pool, q: Pool, a: Addr, h: Hash)
    requires p.managed.Some? && Checked(p, q) && Holds(p.queue, a, h)
    ensures var tx := Of(p.queue, a)[h];
            || (h in q.pending && q.pending[h] == tx)
            || (Holds(q.queue, a, h) && Of(q.queue, a)[h] == tx)
            || tx.nonce < Nonce(p.chain, a)
            || tx.cost > Balance(p.chain, a)
            || (|Of(q.queue, a)| == 64 && forall k: Hash :: k in Of(q.queue, a) ==> Of(q.queue, a)[k].nonce <= tx.nonce)
  {
    SenderLosesNothing(p, q, a, h);
    if Promoted(LineOf(p, a), h) {
      PromotedIsPending(p, q, a, h);
    }
  }

  /** `validatePool` drops a pending transaction only for a past nonce or lack of
      funds; a live one stays, or returns to the queue because a transaction of
      the same sender at or below its nonce lacks funds. */
  lemma ValidatedLosesNothing(p: Pool, q: Pool, h: Hash, a: Addr)
    requires Filed(p.pending, p.queue) && Validated(p, q) && From(p.pending, h, a)
    ensures var tx := p.pending[h];
            || (h in q.pending && q.pending[h] == tx)
            || (Holds(q.queue, a, h) && Of(q.queue, a)[h] == tx && Postponed(p.chain, p.pending, a, tx))
            || tx.nonce < Nonce(p.chain, a)
            || tx.cost > Balance(p.chain, a)
    ensures forall b: Addr, k: Hash :: Holds(p.queue, b, k) ==> Holds(q.queue, b, k) && Of(q.queue, b)[k] == Of(p.queue, b)[k]
  {
    assert Fate(p, q, h, a);
    forall b: Addr, k: Hash | Holds(p.queue, b, k) ensures Holds(q.queue, b, k) && Of(q.queue, b)[k] == Of(p.queue, b)[k] {
      assert Returned(p, q, b, k);
    }
  }

  // ---------- what is let in ----------

  /** What the pool asks of a transaction, given the chain and the settings of the
      moment. */
  predicate Admissible(p: Pool, tx: Tx) {
    && tx.sender.Some? && tx.sender.value in p.chain
    && p.chain[tx.sender.value].nonce <= tx.nonce && tx.cost <= p.chain[tx.sender.value].balance
    && tx.intrinsicGas <= tx.gas <= p.gasLimit
    && tx.price >= p.minGasPrice && tx.amount >= 0
  }

  /** What an error says of the transaction. */
  predicate Tells(p: Pool, tx: Tx, e: AddError) {
    match e
    case Known => tx.hash in p.pending
    case Cheap => tx.price < p.minGasPrice
    case InvalidSender => tx.sender.None?
    case NonExistentAccount => tx.sender.Some? && tx.sender.value !in p.chain
    case LowNonce => tx.sender.Some? && tx.nonce < Nonce(p.chain, tx.sender.value)
    case GasLimitExceeded => tx.gas > p.gasLimit
    case NegativeValue => tx.amount < 0
    case InsufficientFunds => tx.sender.Some? && tx.cost > Balance(p.chain, tx.sender.value)
    case IntrinsicGasTooLow => tx.gas < tx.intrinsicGas
  }

  /** A transaction is refused exactly when it is pending already or not admissible,
      and the error is true of it. */
  lemma RejectTells(p: Pool, tx: Tx)
    ensures Reject(p, tx).None? <==> tx.hash !in p.pending && Admissible(p, tx)
    ensures Reject(p, tx).Some? ==> Tells(p, tx, Reject(p, tx).value)
  {
  }

  ghost predicate Has(p: Pool, tx: Tx) {
    (tx.hash in p.pending && p.pending[tx.hash] == tx) || exists a: Addr :: Queued(p, a, tx)
  }

  predicate Queued(p: Pool, a: Addr, tx: Tx) {
    Holds(p.queue, a, tx.hash) && Of(p.queue, a)[tx.hash] == tx
  }

  lemma CheckedOrigin(p: Pool, q: Pool, tx: Tx)
    requires p.managed.Some? && Checked(p, q) && Has(q, tx)
    ensures Has(p, tx)
  {
    if tx.hash in q.pending && q.pending[tx.hash] == tx {
      if tx.hash !in p.pending {
        var a := NewlyPending(p, q, tx.hash);
        assert Queued(p, a, tx);
      }
    } else {
      var a: Addr :| Queued(q, a, tx);
      KeptIsWaiting(p, q, a, tx.hash);
      assert Queued(p, a, tx);
    }
  }

  lemma ValidatedOrigin(p: Pool, q: Pool, tx: Tx)
    requires Filed(p.pending, p.queue) && Validated(p, q) && Has(q, tx)
    ensures Has(p, tx)
  {
    if tx.hash in q.pending && q.pending[tx.hash] == tx {
      assert From(p.pending, tx.hash, p.pending[tx.hash].sender.value);
    } else {
      var a: Addr :| Queued(q, a, tx);
      assert Returned(p, q, a, tx.hash);
      assert Holds(p.queue, a, tx.hash) && Of(q.queue, a)[tx.hash] == Of(p.queue, a)[tx.hash] ==> Queued(p, a, tx);
    }
  }

  lemma ResetOrigin(p: Pool, q: Pool, tx: Tx)
    requires Filed(p.pending, p.queue) && Reset(p, q) && Has(q, tx)
    ensures Has(p, tx)
  {
    var v, r :| Validated(p, v) && Rebased(v, r) && Checked(r, q);
    CheckedOrigin(r, q, tx);
    SameHas(r, v, tx);
    ValidatedOrigin(p, v, tx);
  }

  lemma SameHas(p: Pool, q: Pool, tx: Tx)
    requires q.pending == p.pending && q.queue == p.queue && Has(p, tx)
    ensures Has(q, tx)
  {
    if a: Addr :| Queued(p, a, tx) {
      assert Queued(q, a, tx);
    }
  }

  lemma CheckedQueueOrigin(p: Pool, q: Pool, tx: Tx)
    requires Filed(p.pending, p.queue) && CheckedQueue(p, q) && Has(q, tx)
    ensures Has(p, tx)
  {
    if p.managed.Some? {
      CheckedOrigin(p, q, tx);
    } else {
      var r :| Reset(p, r) && r.managed.Some? && Checked(r, q);
      CheckedOrigin(r, q, tx);
      ResetOrigin(p, r, tx);
    }
  }

  lemma AddOneOrigin(p: Pool, t: Tx, tx: Tx)
    requires Has(AddOne(p, t), tx)
    ensures Has(p, tx) || (tx == t && Admissible(p, tx))
  {
    var q := AddOne(p, t);
    RejectTells(p, t);
    if a: Addr :| Queued(q, a, tx) {
      assert Queued(p, a, tx) || tx == t;
    }
  }

  lemma {:induction false} AddEachSettings(p: Pool, txs: seq<Tx>)
    ensures var q := AddEach(p, txs);
            q.chain == p.chain && q.gasLimit == p.gasLimit && q.minGasPrice == p.minGasPrice && q.pending == p.pending
  {
    if txs != [] {
      AddEachSettings(p, txs[..|txs| - 1]);
    }
  }

  lemma {:induction false} AddEachAdmits(p: Pool, txs: seq<Tx>, tx: Tx)
    requires Has(AddEach(p, txs), tx)
    ensures Has(p, tx) || (tx in txs && Admissible(p, tx))
    decreases |txs|
  {
    if txs != [] {
      var init, last := txs[..|txs| - 1], txs[|txs| - 1];
      AddOneOrigin(AddEach(p, init), last, tx);
      AddEachSettings(p, init);
      if Has(AddEach(p, init), tx) {
        AddEachAdmits(p, init, tx);
      }
    }
  }

  predicate Offers(e: Event, tx: Tx) {
    match e
    case Add(t) => t == tx
    case AddTransactions(txs) => tx in txs
    case _ => false
  }

  /** A step brings in nothing but admissible transactions that were offered. */
  lemma StepAdmits(p: Pool, e: Event, q: Pool, tx: Tx)
    requires Inv(p) && Fair(p, e) && Step(p, e, q) && Has(q, tx)
    ensures Has(p, tx) || (Offers(e, tx) && Admissible(p, tx))
  {
    match e
    case Add(t) =>
      if Reject(p, t).None? {
        AddOneKeeps(p, t);
        CheckedQueueOrigin(AddOne(p, t), q, tx);
        AddOneOrigin(p, t, tx);
      }
    case AddTransactions(txs) =>
      AddEachKeeps(p, txs);
      CheckedQueueOrigin(AddEach(p, txs), q, tx);
      AddEachAdmits(p, txs, tx);
    case GetTransactions =>
      var r :| CheckedQueue(p, r) && Validated(r, q);
      CheckedQueueKeeps(p, r);
      ValidatedOrigin(r, q, tx);
      CheckedQueueOrigin(p, r, tx);
    case NewHead(c, limit) =>
      var p1 := p.(chain := c, gasLimit := limit);
      ResetOrigin(p1, q, tx);
      SameHas(p1, p, tx);
    case GasPrice(_) =>
      SameHas(q, p, tx);
  }

  /** Over every run from the empty pool: each transaction in the pool was offered to
      it, and was admissible under the chain and the settings of that moment. */
  lemma {:induction false} RunAdmits(ps: seq<Pool>, es: seq<Event>, n: nat, tx: Tx)
    requires Run(ps, es) && ps[0].pending == map[] && ps[0].queue == map[] && ps[0].managed.None?
    requires n < |ps| && Has(ps[n], tx)
    ensures exists i :: 0 <= i < n && Offers(es[i], tx) && Admissible(ps[i], tx)
  {
    if n > 0 {
      EmptyPool(ps[0]);
      RunKeeps(ps, es, n - 1);
      StepAdmits(ps[n - 1], es[n - 1], ps[n], tx);
      if Has(ps[n - 1], tx) {
        RunAdmits(ps, es, n - 1, tx);
      }
    }
  }

  lemma StepSettings(p: Pool, e: Event, q: Pool)
    requires Inv(p) && Fair(p, e) && Step(p, e, q)
    ensures q.gasLimit == (if e.NewHead? then e.gasLimit else p.gasLimit)
    ensures q.minGasPrice == (if e.GasPrice? then e.price else p.minGasPrice)
  {
    if e.AddTransactions? {
      AddEachSettings(p, e.txs);
    }
  }

  lemma {:induction false} RunSettings(ps: seq<Pool>, es: seq<Event>, n: nat, limit: int, price: int)
    requires Run(ps, es) && Inv(ps[0]) && n < |ps| && ps[0].gasLimit <= limit && ps[0].minGasPrice >= price
    requires forall i :: 0 <= i < |es| ==> (es[i].NewHead? ==> es[i].gasLimit <= limit) && (es[i].GasPrice? ==> es[i].price >= price)
    ensures ps[n].gasLimit <= limit && ps[n].minGasPrice >= price
  {
    if n > 0 {
      RunSettings(ps, es, n - 1, limit, price);
      RunKeeps(ps, es, n - 1);
      StepSettings(ps[n - 1], es[n - 1], ps[n]);
    }
  }

  /** So while the gas limit stays at or below `limit` and the least price at or
      above `price`, every transaction of the pool has at least its intrinsic gas and
      at most the limit, pays the price and moves no negative amount. */
  lemma RunWithin(ps: seq<Pool>, es: seq<Event>, n: nat, limit: int, price: int, tx: Tx)
    requires Run(ps, es) && ps[0].pending == map[] && ps[0].queue == map[] && ps[0].managed.None?
    requires ps[0].gasLimit <= limit && ps[0].minGasPrice >= price
    requires forall i :: 0 <= i < |es| ==> (es[i].NewHead? ==> es[i].gasLimit <= limit) && (es[i].GasPrice? ==> es[i].price >= price)
    requires n < |ps| && Has(ps[n], tx)
    ensures tx.intrinsicGas <= tx.gas <= limit && tx.price >= price && tx.amount >= 0
  {
    RunAdmits(ps, es, n, tx);
    var i :| 0 <= i < n && Offers(es[i], tx) && Admissible(ps[i], tx);
    EmptyPool(ps[0]);
    RunSettings(ps, es, i, limit, price);
  }

  // ---------- what becomes of an added transaction ----------

  /** Checking the queue of a sender again changes nothing. */
  lemma LineIdle(p: Pool, q: Pool, a: Addr)
    requires p.managed.Some? && Covered(p) && Checked(p, q)
    ensures var l := LineOf(q, a);
            Reach(l) == Guess(q, a) && Waiting(l) == Of(q.queue, a).Keys && |Waiting(l)| <= 64 &&
            forall h: Hash :: !Promoted(l, h)
  {
    var l, kept := LineOf(q, a), Of(q.queue, a);
    assert CheckedFor(p, q, a);
    GuessBelowReach(p, a, Guess(q, a));
    forall h: Hash | h in kept
      ensures Live(q.chain, a, kept[h]) && kept[h].nonce > Guess(q, a)
    {
      KeptIsWaiting(p, q, a, h);
      assert h in Waiting(LineOf(p, a));
    }
    GapUnique(LiveNonces(q.chain, a, kept), Guess(q, a), Guess(q, a));
    assert |kept| == |kept.Keys|;
  }

  /** Checking the queue twice is checking it once. */
  lemma CheckedIdle(p: Pool, q: Pool, r: Pool)
    requires p.managed.Some? && Covered(p) && Checked(p, q) && Checked(q, r)
    ensures r.pending == q.pending && forall a: Addr :: Of(r.queue, a) == Of(q.queue, a) && Guess(r, a) == Guess(q, a)
  {
    forall a: Addr
      ensures Of(r.queue, a) == Of(q.queue, a) && Guess(r, a) == Guess(q, a)
      ensures forall h: Hash :: !Promoted(LineOf(q, a), h)
    {
      LineIdle(p, q, a);
      assert CheckedFor(q, r, a);
      assert Of(r.queue, a).Keys == Of(q.queue, a).Keys;
    }
    assert r.pending.Keys == q.pending.Keys;
  }

  /** The nonce the pool expects next of a sender; before it has seen a state, the
      chain's. */
  function Expected(p: Pool, a: Addr): nat {
    if p.managed.Some? then Guess(p, a) else Nonce(p.chain, a)
  }

  /** Where a transaction is after the queue was checked: pending or queued, or
      behind 64 queued ones with no higher nonce. */
  ghost predicate Settled(q: Pool, a: Addr, tx: Tx) {
    || (tx.hash in q.pending && q.pending[tx.hash] == tx)
    || Queued(q, a, tx)
    || (|Of(q.queue, a)| == 64 && forall k: Hash :: k in Of(q.queue, a) ==> Of(q.queue, a)[k].nonce <= tx.nonce)
  }

  lemma CheckedSettles(p: Pool, q: Pool, a: Addr, tx: Tx)
    requires p.managed.Some? && Checked(p, q) && Queued(p, a, tx) && Live(p.chain, a, tx)
    ensures Settled(q, a, tx)
    ensures tx.nonce <= Guess(p, a) ==> tx.hash in q.pending && q.pending[tx.hash] == tx
  {
    CheckedLosesNothing(p, q, a, tx.hash);
    if tx.nonce <= Guess(p, a) {
      NotAtReach(LineOf(p, a), tx.hash);
      PromotedIsPending(p, q, a, tx.hash);
    }
  }

  /** A pool without a state has nothing pending, so resetting it only makes the
      chain's nonces the expected ones and checks the queue. */
  lemma FirstReset(p: Pool, v: Pool, r: Pool, a: Addr)
    requires Filed(p.pending, p.queue) && p.pending == map[] && Validated(p, v) && Rebased(v, r)
    ensures Inv(r) && r.managed.Some? && r.chain == p.chain && Guess(r, a) == Nonce(p.chain, a)
    ensures forall tx: Tx :: Queued(p, a, tx) ==> Queued(r, a, tx)
  {
    ValidatedFiled(p, v);
    assert v.pending == map[];
    RebasedKeeps(v, r);
    forall tx: Tx | Queued(p, a, tx)
      ensures Queued(r, a, tx)
    {
      assert Holds(v.queue, a, tx.hash) && Returned(p, v, a, tx.hash);
    }
    assert Guess(r, a) > Nonce(v.chain, a) ==> HasPending(v.pending, a, Guess(r, a) - 1);
  }

  lemma QueueSettles(p: Pool, q: Pool, a: Addr, tx: Tx)
    requires Inv(p) && CheckedQueue(p, q) && Queued(p, a, tx) && Live(p.chain, a, tx)
    ensures Settled(q, a, tx)
    ensures tx.nonce <= Expected(p, a) ==> tx.hash in q.pending && q.pending[tx.hash] == tx
  {
    if p.managed.Some? {
      CheckedSettles(p, q, a, tx);
    } else {
      var c :| Reset(p, c) && c.managed.Some? && Checked(c, q);
      var v, r :| Validated(p, v) && Rebased(v, r) && Checked(r, c);
      FirstReset(p, v, r, a);
      CheckedSettles(r, c, a, tx);
      CheckedIdle(r, c, q);
    }
  }

  /** What `Add` does with a transaction that is not pending: an inadmissible one
      changes nothing; an admissible one is pending afterwards if its nonce is the
      expected one or lower, and else pending, queued, or behind 64 queued ones. */
  lemma AddDecides(p: Pool, tx: Tx, q: Pool)
    requires Inv(p) && Consistent(p, tx) && tx.hash !in p.pending && Step(p, Add(tx), q)
    ensures !Admissible(p, tx) ==> q == p
    ensures Admissible(p, tx) ==> Settled(q, tx.sender.value, tx)
    ensures Admissible(p, tx) && tx.nonce <= Expected(p, tx.sender.value) ==> tx.hash in q.pending && q.pending[tx.hash] == tx
  {
    RejectTells(p, tx);
    if Admissible(p, tx) {
      var a, r := tx.sender.value, AddOne(p, tx);
      AddOneKeeps(p, tx);
      assert Queued(r, a, tx) && Expected(r, a) == Expected(p, a);
      QueueSettles(r, q, a, tx);
    }
  }

  lemma {:induction false} AddEachQueues(p: Pool, txs: seq<Tx>, tx: Tx)
    requires Inv(p) && AllConsistent(p, txs) && tx in txs && tx.hash !in p.pending && Admissible(p, tx)
    ensures Queued(AddEach(p, txs), tx.sender.value, tx)
    decreases |txs|
  {
    var init, last := txs[..|txs| - 1], txs[|txs| - 1];
    var r := AddEach(p, init);
    AddEachSettings(p, init);
    RejectTells(r, last);
    if last != tx {
      assert tx in init;
      AddEachQueues(p, init, tx);
      assert last.hash != tx.hash;
    }
  }

  /** `AddTransactions` does so with each of the list. */
  lemma AddEachDecides(p: Pool, txs: seq<Tx>, q: Pool, tx: Tx)
    requires Inv(p) && AllConsistent(p, txs) && Step(p, AddTransactions(txs), q)
    requires tx in txs && tx.hash !in p.pending && Admissible(p, tx)
    ensures Settled(q, tx.sender.value, tx)
    ensures tx.nonce <= Expected(p, tx.sender.value) ==> tx.hash in q.pending && q.pending[tx.hash] == tx
  {
    var a, r := tx.sender.value, AddEach(p, txs);
    AddEachKeeps(p, txs);
    AddEachQueues(p, txs, tx);
    AddEachSettings(p, txs);
    AddEachManaged(p, txs);
    QueueSettles(r, q, a, tx);
  }

  lemma {:induction false} AddEachManaged(p: Pool, txs: seq<Tx>)
    ensures AddEach(p, txs).managed == p.managed
  {
    if txs != [] {
      AddEachManaged(p, txs[..|txs| - 1]);
    }
  }

  // ---------- a new head ----------

  /** A new chain head leaves a pending transaction pending as long as the chain has
      not passed its nonce and its sender can pay for it and for each of the
      sender's pending transactions with a lower nonce. */
  lemma NewHeadKeeps(p: Pool, c: Chain, limit: int, q: Pool, h: Hash, a: Addr)
    requires Inv(p) && Fair(p, NewHead(c, limit)) && Step(p, NewHead(c, limit), q) && From(p.pending, h, a)
    requires Live(c, a, p.pending[h])
    requires forall k: Hash :: From(p.pending, k, a) && p.pending[k].nonce <= p.pending[h].nonce ==> p.pending[k].cost <= Balance(c, a)
    ensures h in q.pending && q.pending[h] == p.pending[h]
  {
    var p1 := p.(chain := c, gasLimit := limit);
    var v, r :| Validated(p1, v) && Rebased(v, r) && Checked(r, q);
    assert From(p1.pending, h, a) && !Postponed(c, p1.pending, a, p1.pending[h]);
    assert Fate(p1, v, h, a);
  }
}
