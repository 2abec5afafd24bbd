/** The transaction pool of core/transaction_pool.go, as values: processable
    (pending) and future (queued) transactions, and the nonce the pool guesses
    for each sender. `TxPoolObject.dfy` holds the code that updates them. */
module TxPool {
  import opened Wrappers

  type Hash = nat
  type Addr = nat

  const MAX_QUEUED := 64

  /** `sender` is `None` when the signature does not recover; `cost` is the
      amount plus gas price times gas. */
  datatype Tx = Tx(
    hash: Hash, sender: Option<Addr>, nonce: nat, price: int, gas: int, amount: int, cost: int, intrinsicGas: nat)

  type Txs = map<Hash, Tx>

  datatype Account = Account(nonce: nat, balance: int)

  type Chain = map<Addr, Account>

  function Nonce(c: Chain, a: Addr): nat {
    if a in c then c[a].nonce else 0
  }

  function Balance(c: Chain, a: Addr): int {
    if a in c then c[a].balance else 0
  }

  /** `managed` holds the guessed nonces that differ from the chain's; it is
      `None` until the pool first sees a state. */
  datatype Pool = Pool(
    chain: Chain,
    gasLimit: int,
    minGasPrice: int,
    pending: Txs,
    queue: map<Addr, Txs>,
    managed: Option<map<Addr, nat>>)

  /** The queue of one sender. */
  function Of(queue: map<Addr, Txs>, a: Addr): Txs {
    if a in queue then queue[a] else map[]
  }

  function Guess(p: Pool, a: Addr): nat
    requires p.managed.Some?
  {
    if a in p.managed.value then p.managed.value[a] else Nonce(p.chain, a)
  }

  /** Neither past nor out of funds. */
  predicate Live(c: Chain, a: Addr, tx: Tx) {
    Nonce(c, a) <= tx.nonce && tx.cost <= Balance(c, a)
  }

  predicate From(txs: Txs, h: Hash, a: Addr) {
    h in txs && txs[h].sender == Some(a)
  }

  ghost predicate HasPending(txs: Txs, a: Addr, n: nat) {
    exists h: Hash :: From(txs, h, a) && txs[h].nonce == n
  }

  // ---------- the invariant ----------

  /** Transactions sit under their hash and sender, each in one place only. */
  ghost predicate Filed(pending: Txs, queue: map<Addr, Txs>) {
    && (forall h: Hash :: h in pending ==> pending[h].hash == h && pending[h].sender.Some?)
    && (forall a: Addr, h: Hash :: Holds(queue, a, h) ==>
          Of(queue, a)[h].hash == h && Of(queue, a)[h].sender == Some(a) && h !in pending)
    && (forall a: Addr, b: Addr, h: Hash :: Holds(queue, a, h) && Holds(queue, b, h) ==> a == b)
  }

  predicate Holds(queue: map<Addr, Txs>, a: Addr, h: Hash) {
    h in Of(queue, a)
  }

  /** Each sender's pending nonces reach down to the chain's nonce without a gap. */
  ghost predicate Gapless(c: Chain, pending: Txs) {
    forall h: Hash, a: Addr, n: nat :: From(pending, h, a) && Nonce(c, a) <= n < pending[h].nonce ==> HasPending(pending, a, n)
  }

  ghost predicate AllLive(c: Chain, pending: Txs) {
    forall h: Hash, a: Addr :: From(pending, h, a) ==> Live(c, a, pending[h])
  }

  /** Pending covers every nonce from the chain's up to the guessed one. */
  ghost predicate Covered(p: Pool)
    requires p.managed.Some?
  {
    && (forall a: Addr :: Nonce(p.chain, a) <= Guess(p, a))
    && (forall a: Addr, n: nat :: Nonce(p.chain, a) <= n < Guess(p, a) ==> HasPending(p.pending, a, n))
  }

  ghost predicate Inv(p: Pool) {
    && Filed(p.pending, p.queue)
    && Gapless(p.chain, p.pending) && AllLive(p.chain, p.pending)
    && (p.managed.None? ==> p.pending == map[])
    && (p.managed.Some? ==> Covered(p))
  }

  // ---------- checkQueue ----------

  ghost function LiveNonces(c: Chain, a: Addr, txs: Txs): set<nat> {
    set h | h in txs && Live(c, a, txs[h]) :: txs[h].nonce
  }

  /** The first nonce from `g` on that is not in `s`. */
  ghost function GapAfter(s: set<nat>, g: nat): (r: nat)
    ensures g <= r && r !in s && forall n: nat :: g <= n < r ==> n in s
    decreases |s|
  {
    if g in s then
      var r := GapAfter(s - {g}, g + 1);
      assert forall n: nat :: g <= n < r ==> n in s by {
        forall n: nat | g <= n < r ensures n in s {
          assert n == g || n in s - {g};
        }
      }
      r
    else g
  }

  lemma GapUnique(s: set<nat>, g: nat, r: nat)
    requires g <= r && r !in s && forall n: nat :: g <= n < r ==> n in s
    ensures GapAfter(s, g) == r
  {
    assert forall n: nat :: g <= n < GapAfter(s, g) ==> n in s;
  }

  /** All that `checkQueue` looks at for one sender. */
  datatype Line = Line(chain: Chain, a: Addr, txs: Txs, guess: nat)

  function LineOf(p: Pool, a: Addr): Line
    requires p.managed.Some?
  {
    Line(p.chain, a, Of(p.queue, a), Guess(p, a))
  }

  /** Up to which nonce the sender's queue can be promoted. */
  ghost function Reach(l: Line): nat {
    GapAfter(LiveNonces(l.chain, l.a, l.txs), l.guess)
  }

  ghost predicate Promoted(l: Line, h: Hash) {
    h in l.txs && Live(l.chain, l.a, l.txs[h]) && l.txs[h].nonce < Reach(l)
  }

  ghost function Waiting(l: Line): set<Hash> {
    set h | h in l.txs && Live(l.chain, l.a, l.txs[h]) && l.txs[h].nonce > Reach(l)
  }

  /** What `checkQueue` keeps queued: everything live beyond the gap, or the 64
      lowest nonces of it. */
  ghost predicate KeptFor(l: Line, kept: Txs) {
    && (forall h: Hash :: h in kept ==> h in Waiting(l) && kept[h] == l.txs[h])
    && (|Waiting(l)| <= MAX_QUEUED ==> kept.Keys == Waiting(l))
    && (|Waiting(l)| > MAX_QUEUED ==> |kept| == MAX_QUEUED)
    && (forall h: Hash, k: Hash :: h in Waiting(l) && h !in kept && k in kept ==> kept[k].nonce <= l.txs[h].nonce)
  }

  /** The guessed nonce afterwards: one above the highest promoted nonce. */
  ghost predicate GuessedFor(l: Line, g: nat) {
    && ((forall h: Hash :: !Promoted(l, h)) ==> g == l.guess)
    && (forall h: Hash :: Promoted(l, h) ==> l.txs[h].nonce < g)
    && ((exists h: Hash :: Promoted(l, h)) ==> exists h: Hash :: Promoted(l, h) && l.txs[h].nonce + 1 == g)
  }

  ghost predicate CheckedFor(p: Pool, q: Pool, a: Addr)
    requires p.managed.Some? && q.managed.Some?
  {
    KeptFor(LineOf(p, a), Of(q.queue, a)) && GuessedFor(LineOf(p, a), Guess(q, a))
  }

  /** `checkQueue` on a pool that has a state. */
  ghost predicate Checked(p: Pool, q: Pool)
    requires p.managed.Some?
  {
    && q == p.(pending := q.pending, queue := q.queue, managed := q.managed) && q.managed.Some?
    && (forall a: Addr {:trigger CheckedFor(p, q, a)} :: CheckedFor(p, q, a))
    && (forall a: Addr :: a in q.queue ==> q.queue[a] != map[])
    && (forall h: Hash :: h in p.pending ==> h in q.pending && q.pending[h] == p.pending[h])
    && (forall a: Addr, h: Hash :: Promoted(LineOf(p, a), h) ==> h in q.pending && q.pending[h] == Of(p.queue, a)[h])
    && (forall h: Hash :: h in q.pending && h !in p.pending ==>
          q.pending[h].sender.Some? && Promoted(LineOf(p, q.pending[h].sender.value), h))
  }

  // ---------- validatePool ----------

  predicate Broke(c: Chain, a: Addr, tx: Tx) {
    Nonce(c, a) <= tx.nonce && tx.cost > Balance(c, a)
  }

  /** A transaction at or beyond its sender's gap. */
  ghost predicate Postponed(c: Chain, txs: Txs, a: Addr, tx: Tx) {
    exists h: Hash :: From(txs, h, a) && Broke(c, a, txs[h]) && txs[h].nonce <= tx.nonce
  }

  /** What becomes of a pending transaction: past and unaffordable ones go,
      live ones at or beyond a gap return to the queue, the rest stay. */
  ghost predicate Fate(p: Pool, q: Pool, h: Hash, a: Addr)
    requires From(p.pending, h, a)
  {
    if Live(p.chain, a, p.pending[h]) && !Postponed(p.chain, p.pending, a, p.pending[h])
    then h in q.pending && q.pending[h] == p.pending[h]
    else h !in q.pending && (Live(p.chain, a, p.pending[h]) ==> Holds(q.queue, a, h) && Of(q.queue, a)[h] == p.pending[h])
  }

  /** `validatePool`. */
  ghost predicate Validated(p: Pool, q: Pool) {
    && q == p.(pending := q.pending, queue := q.queue)
    && (forall h: Hash, a: Addr :: From(p.pending, h, a) ==> Fate(p, q, h, a))
    && (forall h: Hash :: h in q.pending ==> h in p.pending)
    && (forall a: Addr, h: Hash :: Holds(p.queue, a, h) ==> Holds(q.queue, a, h))
    && (forall a: Addr, h: Hash :: Holds(q.queue, a, h) ==> Returned(p, q, a, h))
  }

  /** Where a queued transaction comes from. */
  ghost predicate Returned(p: Pool, q: Pool, a: Addr, h: Hash)
    requires Holds(q.queue, a, h)
  {
    || (Holds(p.queue, a, h) && Of(q.queue, a)[h] == Of(p.queue, a)[h])
    || (From(p.pending, h, a) && Live(p.chain, a, p.pending[h]) && h !in q.pending && Of(q.queue, a)[h] == p.pending[h])
  }

  // ---------- resetState and the public operations ----------

  /** The guessed nonces after `resetState` has looked at all pending ones. */
  ghost predicate Rebased(p: Pool, q: Pool) {
    && q == p.(managed := q.managed) && q.managed.Some?
    && (forall h: Hash, a: Addr :: From(p.pending, h, a) ==> p.pending[h].nonce < Guess(q, a))
    && (forall a: Addr :: Nonce(p.chain, a) <= Guess(q, a))
    && (forall a: Addr :: Guess(q, a) > Nonce(p.chain, a) ==> HasPending(p.pending, a, Guess(q, a) - 1))
  }

  ghost predicate Reset(p: Pool, q: Pool) {
    exists v, r :: Validated(p, v) && Rebased(v, r) && Checked(r, q)
  }

  /** `checkQueue`: a pool without a state resets itself first. */
  ghost predicate CheckedQueue(p: Pool, q: Pool) {
    if p.managed.Some? then Checked(p, q)
    else exists r :: Reset(p, r) && r.managed.Some? && Checked(r, q)
  }

  datatype AddError =
    | Known | Cheap | InvalidSender | NonExistentAccount | LowNonce | GasLimitExceeded
    | NegativeValue | InsufficientFunds | IntrinsicGasTooLow

  /** The checks of `add`, in the order they are made. */
  function Reject(p: Pool, tx: Tx): Option<AddError> {
    if tx.hash in p.pending then Some(Known)
    else if p.minGasPrice > tx.price then Some(Cheap)
    else if tx.sender.None? then Some(InvalidSender)
    else if tx.sender.value !in p.chain then Some(NonExistentAccount)
    else if Nonce(p.chain, tx.sender.value) > tx.nonce then Some(LowNonce)
    else if p.gasLimit < tx.gas then Some(GasLimitExceeded)
    else if tx.amount < 0 then Some(NegativeValue)
    else if Balance(p.chain, tx.sender.value) < tx.cost then Some(InsufficientFunds)
    else if tx.gas < tx.intrinsicGas then Some(IntrinsicGasTooLow)
    else None
  }

  function Enqueue(p: Pool, a: Addr, tx: Tx): Pool {
    p.(queue := p.queue[a := Of(p.queue, a)[tx.hash := tx]])
  }

  function AddOne(p: Pool, tx: Tx): Pool {
    if Reject(p, tx).Some? then p else Enqueue(p, tx.sender.value, tx)
  }

  function AddEach(p: Pool, txs: seq<Tx>): Pool {
    if txs == [] then p else AddOne(AddEach(p, txs[..|txs| - 1]), txs[|txs| - 1])
  }

  datatype Event =
    | Add(tx: Tx)
    | AddTransactions(txs: seq<Tx>)
    | GetTransactions
    | NewHead(chain: Chain, gasLimit: int)
    | GasPrice(price: int)

  /** One public operation, or an event of `eventLoop`: a new chain head, which
      brings a new gas limit and resets the state, or a new least gas price. */
  ghost predicate Step(p: Pool, e: Event, q: Pool) {
    match e
    case Add(tx) => if Reject(p, tx).Some? then q == p else CheckedQueue(AddOne(p, tx), q)
    case AddTransactions(txs) => CheckedQueue(AddEach(p, txs), q)
    case GetTransactions => exists r :: CheckedQueue(p, r) && Validated(r, q)
    case NewHead(c, limit) => Reset(p.(chain := c, gasLimit := limit), q)
    case GasPrice(price) => q == p.(minGasPrice := price)
  }
}
