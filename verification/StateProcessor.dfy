/** Whole blocks of core/state_processor.go: transactions in order against one
    gas pool, receipts with cumulative gas, then the mining rewards. */
module StateProcessor {
  import opened Wrappers
  import opened WorldState
  import opened Execution
  import opened StateTransition

  const BLOCK_REWARD := 5_000_000_000_000_000_000

  datatype Tx = Tx(msg: Message, script: Script)

  datatype Receipt = Receipt(cumulative: nat, gasUsed: int)

  datatype Uncle = Uncle(number: nat, coinbase: Addr)

  datatype Block = Block(number: nat, coinbase: Addr, gasLimit: nat, txs: seq<Tx>, uncles: seq<Uncle>)

  /** A block part of the way: state, gas left in the pool, gas used, receipts. */
  datatype Progress = Progress(state: State, pool: nat, used: nat, receipts: seq<Receipt>, error: Option<TxError>)

  function Alive(m: Accounts): Accounts {
    map a: Addr | a in m && !m[a].remove :: m[a]
  }

  function Dead(m: Accounts): Accounts {
    map a: Addr | a in m && m[a].remove :: m[a]
  }

  /** `IntermediateRoot`: self-destructed accounts go, with whatever they were
      paid since, and the refund counter starts again. */
  ghost function Finalise(s: State): State {
    State(Alive(s.accounts), 0, s.burnt + Total(Dead(s.accounts)))
  }

  /** `ApplyTransaction`. */
  ghost function Apply(p: Progress, coinbase: Addr, tx: Tx): Progress {
    var o := Transition(p.state, p.pool, tx.msg, coinbase, tx.script);
    if o.error.Some? then Progress(o.state, o.pool, p.used, [], o.error)
    else
      var used := p.used + o.usedGas;
      Progress(Finalise(o.state), o.pool, used, p.receipts + [Receipt(used, o.usedGas)], None)
  }

  ghost function Next(p: Progress, coinbase: Addr, tx: Tx): Progress {
    if p.error.Some? then p else Apply(p, coinbase, tx)
  }

  /** The transaction loop; it stops at the first error. */
  ghost function ApplyAll(s: State, block: Block, n: nat): Progress
    requires n <= |block.txs|
  {
    if n == 0 then Progress(s, block.gasLimit, 0, [], None)
    else Next(ApplyAll(s, block, n - 1), block.coinbase, block.txs[n - 1])
  }

  function UncleReward(uncle: nat, number: nat): int {
    (uncle + 8 - number) * BLOCK_REWARD / 8
  }

  function PayUncles(s: State, number: nat, uncles: seq<Uncle>): State {
    if uncles == [] then s
    else
      var u := uncles[|uncles| - 1];
      Credit(PayUncles(s, number, uncles[..|uncles| - 1]), u.coinbase, UncleReward(u.number, number))
  }

  function MinerReward(uncles: nat): int {
    BLOCK_REWARD + uncles * (BLOCK_REWARD / 32)
  }

  /** `AccumulateRewards`. */
  function Rewarded(s: State, block: Block): State {
    Credit(PayUncles(s, block.number, block.uncles), block.coinbase, MinerReward(|block.uncles|))
  }

  /** `Process`. */
  ghost function Process(s: State, block: Block): Progress {
    var p := ApplyAll(s, block, |block.txs|);
    if p.error.Some? then p else p.(state := Rewarded(p.state, block))
  }

  /** What the rewards of a block add up to. */
  function Minted(number: nat, uncles: seq<Uncle>): int {
    if uncles == [] then BLOCK_REWARD
    else Minted(number, uncles[..|uncles| - 1]) + UncleReward(uncles[|uncles| - 1].number, number) + BLOCK_REWARD / 32
  }

  // ---------- proofs ----------

  lemma SplitDead(m: Accounts, a: Addr)
    requires a in m && m[a].remove
    ensures Dead(m) - {a} == Dead(m - {a}) && Alive(m) == Alive(m - {a})
    ensures a in Dead(m) && Dead(m)[a] == m[a]
  {
  }

  lemma SplitAlive(m: Accounts, a: Addr)
    requires a in m && !m[a].remove
    ensures Alive(m) - {a} == Alive(m - {a}) && Dead(m) == Dead(m - {a})
    ensures a in Alive(m) && Alive(m)[a] == m[a]
  {
  }

  lemma {:induction false} TotalSplit(m: Accounts)
    ensures Total(m) == Total(Alive(m)) + Total(Dead(m))
    decreases |m|
  {
    if m == map[] {
      assert Alive(m) == map[] && Dead(m) == map[];
    } else {
      var a :| a in m;
      SplitStep(m, a, Alive(m), Dead(m));
    }
  }

  lemma {:induction false} SplitStep(m: Accounts, a: Addr, alive: Accounts, dead: Accounts)
    requires a in m && alive == Alive(m) && dead == Dead(m)
    ensures Total(m) == Total(alive) + Total(dead)
    decreases |m|, 0
  {
    var rest := m - {a};
    TotalSplit(rest);
    TotalWithout(m, a);
    if m[a].remove {
      SplitDead(m, a);
      TotalWithout(dead, a);
    } else {
      SplitAlive(m, a);
      TotalWithout(alive, a);
    }
  }

  lemma FinaliseKept(s: State)
    ensures Supply(Finalise(s)) == Supply(s) && Sound(s, Finalise(s))
  {
    TotalSplit(s.accounts);
    if NonNegative(s.accounts) {
      TotalNonNegative(Dead(s.accounts));
    }
  }

  /** Receipts carry running totals of the gas each transaction used, and each
      used at least half the price of a bare transaction. */
  predicate Running(receipts: seq<Receipt>) {
    forall i :: 0 <= i < |receipts| ==> RunningAt(receipts, i)
  }

  predicate RunningAt(receipts: seq<Receipt>, i: nat)
    requires i < |receipts|
  {
    && receipts[i].cumulative == (if i == 0 then 0 else receipts[i - 1].cumulative) + receipts[i].gasUsed
    && 2 * receipts[i].gasUsed >= TX_GAS
  }

  function LastOf(receipts: seq<Receipt>): nat {
    if receipts == [] then 0 else receipts[|receipts| - 1].cumulative
  }

  /** What the transaction loop keeps. */
  ghost predicate LoopInv(s: State, block: Block, n: nat, p: Progress) {
    && Supply(p.state) == Supply(s) && Sound(s, p.state)
    && p.pool + p.used == block.gasLimit
    && |p.receipts| == n && Running(p.receipts) && LastOf(p.receipts) == p.used
  }

  lemma RunningPush(receipts: seq<Receipt>, r: Receipt)
    requires Running(receipts)
    requires r.cumulative == LastOf(receipts) + r.gasUsed && 2 * r.gasUsed >= TX_GAS
    ensures Running(receipts + [r]) && LastOf(receipts + [r]) == r.cumulative
  {
    var rs := receipts + [r];
    forall i | 0 <= i < |rs|
      ensures RunningAt(rs, i)
    {
      if i < |receipts| {
        assert RunningAt(receipts, i);
      }
    }
  }

  lemma ApplyKeeps(s: State, block: Block, n: nat, p: Progress, tx: Tx)
    requires LoopInv(s, block, n, p) && Apply(p, block.coinbase, tx).error.None?
    ensures LoopInv(s, block, n + 1, Apply(p, block.coinbase, tx))
  {
    var o := Transition(p.state, p.pool, tx.msg, block.coinbase, tx.script);
    TransitionConserves(p.state, p.pool, tx.msg, block.coinbase, tx.script);
    TransitionGas(p.state, p.pool, tx.msg, block.coinbase, tx.script);
    FinaliseKept(o.state);
    RunningPush(p.receipts, Receipt(p.used + o.usedGas, o.usedGas));
  }

  ghost predicate Good(s: State, block: Block, n: nat, p: Progress) {
    p.error.None? ==> LoopInv(s, block, n, p)
  }

  lemma NextKeeps(s: State, block: Block, n: nat, p: Progress, tx: Tx)
    requires Good(s, block, n, p)
    ensures Good(s, block, n + 1, Next(p, block.coinbase, tx))
  {
    if p.error.None? && Apply(p, block.coinbase, tx).error.None? {
      ApplyKeeps(s, block, n, p, tx);
    }
  }

  lemma NextGood(s: State, block: Block, n: nat, p: Progress, tx: Tx, q: Progress)
    requires Good(s, block, n, p) && q == Next(p, block.coinbase, tx)
    ensures Good(s, block, n + 1, q)
  {
    NextKeeps(s, block, n, p, tx);
  }

  lemma Unfold(s: State, block: Block, n: nat)
    requires n < |block.txs|
    ensures ApplyAll(s, block, n + 1) == Next(ApplyAll(s, block, n), block.coinbase, block.txs[n])
  {
  }

  lemma Start(s: State, block: Block)
    ensures Good(s, block, 0, ApplyAll(s, block, 0))
  {
  }

  lemma {:induction false} ApplyAllKeeps(s: State, block: Block, n: nat, p: Progress)
    requires n <= |block.txs| && p == ApplyAll(s, block, n)
    ensures Good(s, block, n, p)
  {
    if n == 0 {
      Start(s, block);
    } else {
      var q := ApplyAll(s, block, n - 1);
      ApplyAllKeeps(s, block, n - 1, q);
      Unfold(s, block, n - 1);
      NextGood(s, block, n - 1, q, block.txs[n - 1], p);
    }
  }

  /** The end of a transaction: self-destructed accounts are gone, the others are as
      they were, and the refund counter starts at zero again. */
  lemma FinaliseClears(s: State, a: Addr)
    ensures var f := Finalise(s);
            && f.refund == 0 && (a in f.accounts <==> a in s.accounts && !s.accounts[a].remove)
            && (a in f.accounts ==> f.accounts[a] == s.accounts[a])
  {
  }

  /** So no transaction of a block sees a mark or a refund of an earlier one. */
  lemma LoopClears(s: State, block: Block, n: nat, p: Progress)
    requires 0 < n <= |block.txs| && p == ApplyAll(s, block, n) && p.error.None?
    ensures p.state.refund == 0 && forall a: Addr :: Unmarked(p.state, a)
  {
    Unfold(s, block, n - 1);
  }

  /** The transaction neither creates a contract at `a` nor lets `a` destroy itself. */
  predicate Spares(tx: Tx, a: Addr) {
    && !(tx.msg.to.None? && tx.script.created == a) && !Creates(tx.script.body, a)
    && !Destroys(Recipient(tx.msg, tx.script), tx.script.body, a)
  }

  lemma ApplySteady(p: Progress, coinbase: Addr, tx: Tx, a: Addr, q: Progress)
    requires q == Apply(p, coinbase, tx) && q.error.None? && Spares(tx, a) && Unmarked(p.state, a)
    ensures NonceOf(q.state.accounts, a) >= NonceOf(p.state.accounts, a) && Unmarked(q.state, a)
    ensures tx.msg.from == a ==> NonceOf(p.state.accounts, a) == tx.msg.nonce < NonceOf(q.state.accounts, a)
  {
    var o := Transition(p.state, p.pool, tx.msg, coinbase, tx.script);
    NonceRises(p.state, p.pool, tx.msg, coinbase, tx.script, a, o);
    FinaliseClears(o.state, a);
  }

  ghost predicate Advanced(p: Progress, tx: Tx, a: Addr, q: Progress) {
    && NonceOf(q.state.accounts, a) >= NonceOf(p.state.accounts, a)
    && (tx.msg.from == a ==> NonceOf(p.state.accounts, a) == tx.msg.nonce < NonceOf(q.state.accounts, a))
  }

  /** One step of the loop, as far as `a` is concerned. */
  ghost predicate Stepped(p: Progress, tx: Tx, a: Addr, q: Progress) {
    q.error.None? ==>
      p.error.None? && Unmarked(q.state, a) && (Spares(tx, a) && Unmarked(p.state, a) ==> Advanced(p, tx, a, q))
  }

  lemma NextSteps(p: Progress, coinbase: Addr, tx: Tx, a: Addr, q: Progress)
    requires q == Next(p, coinbase, tx)
    ensures Stepped(p, tx, a, q)
  {
    if q.error.None? {
      FinaliseClears(Transition(p.state, p.pool, tx.msg, coinbase, tx.script).state, a);
      if Spares(tx, a) && Unmarked(p.state, a) {
        ApplySteady(p, coinbase, tx, a, q);
      }
    }
  }

  /** The states between the transactions. */
  ghost predicate Trace(s: State, block: Block, n: nat, a: Addr, ps: seq<Progress>)
    requires n <= |block.txs|
  {
    |ps| == n + 1 && ps[0].state == s && forall k :: 0 <= k < n ==> Stepped(ps[k], block.txs[k], a, ps[k + 1])
  }

  lemma Traced(s: State, block: Block, n: nat, a: Addr) returns (ps: seq<Progress>)
    requires n <= |block.txs|
    ensures Trace(s, block, n, a, ps) && ps[n] == ApplyAll(s, block, n)
  {
    ps := seq(n + 1, k requires 0 <= k <= n => ApplyAll(s, block, k));
    forall k | 0 <= k < n
      ensures Stepped(ps[k], block.txs[k], a, ps[k + 1])
    {
      StepTraced(s, block, k, a, ps[k], ps[k + 1]);
    }
    StartsAt(s, block, ps[0]);
  }

  lemma StartsAt(s: State, block: Block, p: Progress)
    requires p == ApplyAll(s, block, 0)
    ensures p.state == s
  {
  }

  lemma StepTraced(s: State, block: Block, n: nat, a: Addr, p: Progress, q: Progress)
    requires n < |block.txs| && p == ApplyAll(s, block, n) && q == ApplyAll(s, block, n + 1)
    ensures Stepped(p, block.txs[n], a, q)
  {
    Unfold(s, block, n);
    NextSteps(p, block.coinbase, block.txs[n], a, q);
  }

  lemma {:induction false} TraceSteady(s: State, block: Block, n: nat, a: Addr, ps: seq<Progress>, l: nat, m: nat)
    requires n <= |block.txs| && Trace(s, block, n, a, ps) && l <= m <= n && ps[m].error.None? && Unmarked(s, a)
    ensures ps[l].error.None? && Unmarked(ps[m].state, a)
    ensures (forall k :: l <= k < m ==> Spares(block.txs[k], a)) ==>
            NonceOf(ps[m].state.accounts, a) >= NonceOf(ps[l].state.accounts, a)
    decreases m
  {
    if m > 0 {
      assert Stepped(ps[m - 1], block.txs[m - 1], a, ps[m]);
      TraceSteady(s, block, n, a, ps, if l < m then l else m - 1, m - 1);
    }
  }

  /** In a processed block the transactions of one sender have strictly increasing
      nonces, so none is applied twice, as long as no contract is created at the
      sender's address and the sender does not destroy itself. */
  lemma NoncesIncrease(s: State, block: Block, i: nat, j: nat, a: Addr)
    requires i < j < |block.txs| && Process(s, block).error.None? && Unmarked(s, a)
    requires block.txs[i].msg.from == block.txs[j].msg.from == a
    requires forall k :: i <= k <= j ==> Spares(block.txs[k], a)
    ensures block.txs[i].msg.nonce < block.txs[j].msg.nonce
  {
    var ps := Traced(s, block, |block.txs|, a);
    NoncesApart(s, block, i, j, a, ps);
  }

  lemma NoncesApart(s: State, block: Block, i: nat, j: nat, a: Addr, ps: seq<Progress>)
    requires i < j < |block.txs| && Unmarked(s, a)
    requires Trace(s, block, |block.txs|, a, ps) && ps[|block.txs|].error.None?
    requires block.txs[i].msg.from == block.txs[j].msg.from == a
    requires forall k :: i <= k <= j ==> Spares(block.txs[k], a)
    ensures block.txs[i].msg.nonce < block.txs[j].msg.nonce
  {
    var n := |block.txs|;
    TraceSteady(s, block, n, a, ps, j + 1, n);
    assert Stepped(ps[j], block.txs[j], a, ps[j + 1]) && Stepped(ps[i], block.txs[i], a, ps[i + 1]);
    TraceSteady(s, block, n, a, ps, i, j);
    TraceSteady(s, block, n, a, ps, i + 1, j);
    TraceSteady(s, block, n, a, ps, i, i);
  }

  // ---------- fees ----------

  /** What the first `n` transactions of a block pay for the gas they used. */
  function Fees(block: Block, receipts: seq<Receipt>, n: nat): int
    requires n <= |block.txs| && n <= |receipts|
  {
    if n == 0 then 0 else Fees(block, receipts, n - 1) + receipts[n - 1].gasUsed * block.txs[n - 1].msg.gasPrice
  }

  /** Straight code, and neither sent nor received by `a`. */
  predicate Apart(tx: Tx, a: Addr) {
    && Straight(tx.script.body) && tx.msg.from != a && Recipient(tx.msg, tx.script) != a
    && (tx.msg.to.None? ==> tx.script.created != tx.msg.from)
  }

  lemma {:induction false} StraightSpares(b: Body, self: Addr, a: Addr)
    requires Straight(b)
    ensures !Creates(b, a) && !Destroys(self, b, a)
    decreases b
  {
    match b
    case Return(_) =>
    case Spend(_, rest) => StraightSpares(rest, self, a);
    case AddRefund(_, rest) => StraightSpares(rest, self, a);
  }

  ghost predicate FeePaid(p: Progress, coinbase: Addr, tx: Tx, q: Progress) {
    q.error.None? ==>
      && p.error.None? && (Unmarked(p.state, coinbase) ==> Unmarked(q.state, coinbase))
      && |q.receipts| == |p.receipts| + 1 && q.receipts[..|p.receipts|] == p.receipts
      && (Apart(tx, coinbase) && Unmarked(p.state, coinbase) ==>
            BalanceOf(q.state.accounts, coinbase) ==
              BalanceOf(p.state.accounts, coinbase) + q.receipts[|p.receipts|].gasUsed * tx.msg.gasPrice)
  }

  lemma ApplyPays(p: Progress, coinbase: Addr, tx: Tx, q: Progress, o: Outcome)
    requires q == Apply(p, coinbase, tx) && q.error.None? && Apart(tx, coinbase) && Unmarked(p.state, coinbase)
    requires o == Transition(p.state, p.pool, tx.msg, coinbase, tx.script)
    ensures Unmarked(o.state, coinbase)
    ensures BalanceOf(q.state.accounts, coinbase) == BalanceOf(p.state.accounts, coinbase) + o.usedGas * tx.msg.gasPrice
  {
    StraightSpares(tx.script.body, Recipient(tx.msg, tx.script), coinbase);
    NonceRises(p.state, p.pool, tx.msg, coinbase, tx.script, coinbase, o);
    StraightMessage(p.state, p.pool, tx.msg, coinbase, tx.script, coinbase, o);
    FinaliseClears(o.state, coinbase);
  }

  lemma NextPays(p: Progress, coinbase: Addr, tx: Tx, q: Progress)
    requires q == Next(p, coinbase, tx)
    ensures FeePaid(p, coinbase, tx, q)
  {
    if q.error.None? {
      var o := Transition(p.state, p.pool, tx.msg, coinbase, tx.script);
      FinaliseClears(o.state, coinbase);
      if Apart(tx, coinbase) && Unmarked(p.state, coinbase) {
        ApplyPays(p, coinbase, tx, q, o);
      }
    }
  }

  lemma StepPays(s: State, block: Block, n: nat, p: Progress, q: Progress)
    requires n < |block.txs| && p == ApplyAll(s, block, n) && q == ApplyAll(s, block, n + 1)
    ensures FeePaid(p, block.coinbase, block.txs[n], q)
  {
    Unfold(s, block, n);
    NextPays(p, block.coinbase, block.txs[n], q);
  }

  lemma AllSteps(s: State, block: Block) returns (ps: seq<Progress>)
    ensures |ps| == |block.txs| + 1 && ps[0] == Progress(s, block.gasLimit, 0, [], None)
    ensures ps[|block.txs|] == ApplyAll(s, block, |block.txs|)
    ensures forall k :: 0 <= k < |block.txs| ==> FeePaid(ps[k], block.coinbase, block.txs[k], ps[k + 1])
  {
    ps := seq(|block.txs| + 1, k requires 0 <= k <= |block.txs| => ApplyAll(s, block, k));
    forall k | 0 <= k < |block.txs|
      ensures FeePaid(ps[k], block.coinbase, block.txs[k], ps[k + 1])
    {
      StepPays(s, block, k, ps[k], ps[k + 1]);
    }
    Begins(s, block, ps[0]);
  }

  lemma Begins(s: State, block: Block, p: Progress)
    requires p == ApplyAll(s, block, 0)
    ensures p == Progress(s, block.gasLimit, 0, [], None)
  {
  }

  lemma {:induction false} FeesSame(block: Block, receipts: seq<Receipt>, receipts': seq<Receipt>, n: nat)
    requires n <= |block.txs| && n <= |receipts| <= |receipts'| && receipts'[..|receipts|] == receipts
    ensures Fees(block, receipts', n) == Fees(block, receipts, n)
  {
    if n > 0 {
      assert receipts'[..|receipts|][n - 1] == receipts'[n - 1];
      FeesSame(block, receipts, receipts', n - 1);
    }
  }

  lemma {:induction false} FeesAdd(s: State, block: Block, ps: seq<Progress>, n: nat)
    requires |ps| == |block.txs| + 1 && n <= |block.txs| && ps[0] == Progress(s, block.gasLimit, 0, [], None)
    requires forall k :: 0 <= k < |block.txs| ==> FeePaid(ps[k], block.coinbase, block.txs[k], ps[k + 1])
    requires forall k :: 0 <= k < n ==> Apart(block.txs[k], block.coinbase)
    requires Unmarked(s, block.coinbase) && ps[n].error.None?
    ensures |ps[n].receipts| == n && Unmarked(ps[n].state, block.coinbase)
    ensures BalanceOf(ps[n].state.accounts, block.coinbase) == BalanceOf(s.accounts, block.coinbase) + Fees(block, ps[n].receipts, n)
  {
    if n > 0 {
      assert FeePaid(ps[n - 1], block.coinbase, block.txs[n - 1], ps[n]);
      FeesAdd(s, block, ps, n - 1);
      FeesSame(block, ps[n - 1].receipts, ps[n].receipts, n - 1);
    }
  }

  /** The miner's income from a block of straight transactions between others: the
      gas each used at its price, and the rewards. */
  lemma MinerPaid(s: State, block: Block)
    requires Process(s, block).error.None? && Unmarked(s, block.coinbase)
    requires forall k :: 0 <= k < |block.txs| ==> Apart(block.txs[k], block.coinbase)
    ensures var p := Process(s, block);
            && |p.receipts| == |block.txs|
            && BalanceOf(p.state.accounts, block.coinbase) == BalanceOf(s.accounts, block.coinbase)
                 + Fees(block, p.receipts, |block.txs|) + MinerReward(|block.uncles|) + UncleIncome(block.number, block.uncles, block.coinbase)
  {
    var ps := AllSteps(s, block);
    FeesAdd(s, block, ps, |block.txs|);
    RewardsPaid(ps[|block.txs|].state, block, block.coinbase);
  }

  // ---------- a block that fails ----------

  /** `q` is where a block stops when `tx`, the next one, fails. */
  ghost predicate StopsAt(p: Progress, coinbase: Addr, tx: Tx, q: Progress) {
    var o := Transition(p.state, p.pool, tx.msg, coinbase, tx.script);
    p.error.None? && o.error.Some? && q == Progress(o.state, o.pool, p.used, [], o.error)
  }

  lemma NextStops(p: Progress, coinbase: Addr, tx: Tx, q: Progress)
    requires q == Next(p, coinbase, tx) && q.error.Some?
    ensures if p.error.Some? then q == p else StopsAt(p, coinbase, tx, q)
  {
  }

  lemma StepStops(s: State, block: Block, n: nat, p: Progress, q: Progress)
    requires n < |block.txs| && p == ApplyAll(s, block, n) && q == ApplyAll(s, block, n + 1) && q.error.Some?
    ensures if p.error.Some? then q == p else StopsAt(p, block.coinbase, block.txs[n], q)
  {
    Unfold(s, block, n);
    NextStops(p, block.coinbase, block.txs[n], q);
  }

  /** One step of the loop, as far as failing is concerned. */
  ghost predicate Halts(p: Progress, coinbase: Addr, tx: Tx, q: Progress) {
    q.error.Some? ==> if p.error.Some? then q == p else StopsAt(p, coinbase, tx, q)
  }

  lemma {:induction false} FirstFailure(block: Block, ps: seq<Progress>, n: nat) returns (k: nat)
    requires |ps| == |block.txs| + 1 && ps[0].error.None? && n < |ps| && ps[n].error.Some?
    requires forall i :: 0 <= i < |block.txs| ==> Halts(ps[i], block.coinbase, block.txs[i], ps[i + 1])
    ensures k < n && StopsAt(ps[k], block.coinbase, block.txs[k], ps[n])
  {
    assert Halts(ps[n - 1], block.coinbase, block.txs[n - 1], ps[n]);
    if ps[n - 1].error.Some? {
      k := FirstFailure(block, ps, n - 1);
    } else {
      k := n - 1;
    }
  }

  lemma HaltingSteps(s: State, block: Block) returns (ps: seq<Progress>)
    ensures |ps| == |block.txs| + 1 && ps[0].error.None?
    ensures forall i :: 0 <= i < |ps| ==> ps[i] == ApplyAll(s, block, i)
    ensures forall i :: 0 <= i < |block.txs| ==> Halts(ps[i], block.coinbase, block.txs[i], ps[i + 1])
  {
    ps := seq(|block.txs| + 1, k requires 0 <= k <= |block.txs| => ApplyAll(s, block, k));
    forall i | 0 <= i < |block.txs|
      ensures Halts(ps[i], block.coinbase, block.txs[i], ps[i + 1])
    {
      if ps[i + 1].error.Some? {
        StepStops(s, block, i, ps[i], ps[i + 1]);
      }
    }
    Begins(s, block, ps[0]);
  }

  /** A block that fails stops at one transaction: those before it have been applied,
      no rewards are paid, no receipts are returned, and all the ether that is
      missing is what the failed transaction paid for its gas. */
  lemma FailedBlock(s: State, block: Block) returns (k: nat)
    requires Process(s, block).error.Some?
    ensures var q := Process(s, block);
            && k < |block.txs| && Good(s, block, k, ApplyAll(s, block, k)) && ApplyAll(s, block, k).error.None?
            && q.receipts == [] && q.used == ApplyAll(s, block, k).used
            && Supply(q.state) == Supply(s) -
                 if StateTransition.Paid(q.error) then block.txs[k].msg.gas * block.txs[k].msg.gasPrice else 0
  {
    var ps := HaltingSteps(s, block);
    k := FirstFailure(block, ps, |block.txs|);
    var p := ps[k];
    ApplyAllKeeps(s, block, k, p);
    FailureLoses(p.state, p.pool, block.txs[k].msg, block.coinbase, block.txs[k].script);
  }

  lemma {:induction false} PayUnclesSupply(s: State, number: nat, uncles: seq<Uncle>)
    ensures Supply(PayUncles(s, number, uncles)) + MinerReward(|uncles|) == Supply(s) + Minted(number, uncles)
  {
    if uncles != [] {
      var u := uncles[|uncles| - 1];
      var rest := uncles[..|uncles| - 1];
      PayUnclesSupply(s, number, rest);
      CreditSupply(PayUncles(s, number, rest), u.coinbase, UncleReward(u.number, number));
    }
  }

  lemma {:induction false} PayUnclesBurns(s: State, number: nat, uncles: seq<Uncle>)
    ensures PayUncles(s, number, uncles).burnt == s.burnt
  {
    if uncles != [] {
      PayUnclesBurns(s, number, uncles[..|uncles| - 1]);
    }
  }

  lemma RewardedBurns(s: State, block: Block)
    ensures Rewarded(s, block).burnt == s.burnt
    ensures Supply(Rewarded(s, block)) == Supply(s) + Minted(block.number, block.uncles)
  {
    PayUnclesBurns(s, block.number, block.uncles);
    PayUnclesSupply(s, block.number, block.uncles);
    CreditSupply(PayUncles(s, block.number, block.uncles), block.coinbase, MinerReward(|block.uncles|));
  }

  /** A processed block creates exactly the rewards: from balances that are not
      negative the sum grows by at most them, and by less exactly by what
      self-destruction burnt. */
  lemma BlockConserves(s: State, block: Block)
    requires Process(s, block).error.None?
    ensures var p, minted := Process(s, block), Minted(block.number, block.uncles);
            && Total(p.state.accounts) + (p.state.burnt - s.burnt) == Total(s.accounts) + minted
            && (NonNegative(s.accounts) ==> p.state.burnt >= s.burnt && Total(p.state.accounts) <= Total(s.accounts) + minted)
            && (Total(p.state.accounts) == Total(s.accounts) + minted <==> p.state.burnt == s.burnt)
  {
    ApplyAllKeeps(s, block, |block.txs|, ApplyAll(s, block, |block.txs|));
    RewardedBurns(ApplyAll(s, block, |block.txs|).state, block);
  }

  /** No uncle is more than eight generations older than the block. */
  predicate Payable(number: nat, uncles: seq<Uncle>) {
    forall i :: 0 <= i < |uncles| ==> number <= uncles[i].number + 8
  }

  lemma {:induction false} PayUnclesNonNegative(s: State, number: nat, uncles: seq<Uncle>)
    requires Payable(number, uncles) && NonNegative(s.accounts)
    ensures NonNegative(PayUncles(s, number, uncles).accounts)
  {
    if uncles != [] {
      var u := uncles[|uncles| - 1];
      PayUnclesNonNegative(s, number, uncles[..|uncles| - 1]);
      CreditNonNegative(PayUncles(s, number, uncles[..|uncles| - 1]), u.coinbase, UncleReward(u.number, number));
    }
  }

  lemma RewardedNonNegative(s: State, block: Block)
    requires Payable(block.number, block.uncles) && NonNegative(s.accounts)
    ensures NonNegative(Rewarded(s, block).accounts)
  {
    PayUnclesNonNegative(s, block.number, block.uncles);
    CreditNonNegative(PayUncles(s, block.number, block.uncles), block.coinbase, MinerReward(|block.uncles|));
  }

  /** A processed block whose uncles can be paid leaves no negative balance. */
  lemma BlockNonNegative(s: State, block: Block)
    requires Process(s, block).error.None? && Payable(block.number, block.uncles) && NonNegative(s.accounts)
    ensures NonNegative(Process(s, block).state.accounts)
  {
    ApplyAllKeeps(s, block, |block.txs|, ApplyAll(s, block, |block.txs|));
    RewardedNonNegative(ApplyAll(s, block, |block.txs|).state, block);
  }

  /** What the uncles with this coinbase earn. */
  function UncleIncome(number: nat, uncles: seq<Uncle>, a: Addr): int {
    if uncles == [] then 0
    else
      var u := uncles[|uncles| - 1];
      UncleIncome(number, uncles[..|uncles| - 1], a) + if u.coinbase == a then UncleReward(u.number, number) else 0
  }

  lemma {:induction false} UnclesPaid(s: State, number: nat, uncles: seq<Uncle>, a: Addr)
    ensures BalanceOf(PayUncles(s, number, uncles).accounts, a) == BalanceOf(s.accounts, a) + UncleIncome(number, uncles, a)
  {
    if uncles != [] {
      UnclesPaid(s, number, uncles[..|uncles| - 1], a);
    }
  }

  /** Every account gets exactly its uncle rewards, and the miner the block reward
      and a thirty-second of it for each uncle. */
  lemma RewardsPaid(s: State, block: Block, a: Addr)
    ensures BalanceOf(Rewarded(s, block).accounts, a) ==
            BalanceOf(s.accounts, a) + UncleIncome(block.number, block.uncles, a) +
            if a == block.coinbase then MinerReward(|block.uncles|) else 0
    ensures MinerReward(|block.uncles|) == 5_000_000_000_000_000_000 + 156_250_000_000_000_000 * |block.uncles|
  {
    UnclesPaid(s, block.number, block.uncles, a);
  }

  /** Cumulative gas strictly increases from receipt to receipt. */
  lemma {:induction false} CumulativeIncreases(receipts: seq<Receipt>, i: nat, j: nat)
    requires Running(receipts) && i < j < |receipts|
    ensures receipts[i].cumulative < receipts[j].cumulative
    decreases j
  {
    assert RunningAt(receipts, j);
    if i < j - 1 {
      CumulativeIncreases(receipts, i, j - 1);
    }
  }

  /** The gas of a processed block: what the pool lost is the sum the last
      receipt shows, it is within the block's limit, and one receipt stands for
      each transaction. */
  lemma BlockGas(s: State, block: Block)
    requires Process(s, block).error.None?
    ensures var p := Process(s, block);
            && p.pool + p.used == block.gasLimit && LastOf(p.receipts) == p.used
            && |p.receipts| == |block.txs| && Running(p.receipts)
            && 2 * p.used >= TX_GAS * |block.txs|
            && (NonNegative(s.accounts) ==> NonNegative(ApplyAll(s, block, |block.txs|).state.accounts))
  {
    ApplyAllKeeps(s, block, |block.txs|, ApplyAll(s, block, |block.txs|));
    RunningGrows(Process(s, block).receipts);
  }

  lemma {:induction false} RunningGrows(receipts: seq<Receipt>)
    requires Running(receipts)
    ensures 2 * LastOf(receipts) >= TX_GAS * |receipts|
  {
    if receipts != [] {
      var rest := receipts[..|receipts| - 1];
      forall i | 0 <= i < |rest|
        ensures RunningAt(rest, i)
      {
        assert RunningAt(receipts, i);
      }
      RunningGrows(rest);
      assert RunningAt(receipts, |receipts| - 1);
    }
  }

  function Totals(receipts: seq<Receipt>): seq<nat> {
    seq(|receipts|, i requires 0 <= i < |receipts| => receipts[i].cumulative)
  }

  /** What fast sync computes for a transaction from the cumulative fields. */
  function Difference(cumulative: seq<nat>, i: nat): int
    requires i < |cumulative|
  {
    (cumulative[i] as int) - (if i == 0 then 0 else cumulative[i - 1])
  }

  lemma RunningDifferences(receipts: seq<Receipt>)
    requires Running(receipts)
    ensures forall i :: 0 <= i < |receipts| ==> Difference(Totals(receipts), i) == receipts[i].gasUsed
  {
    forall i | 0 <= i < |receipts|
      ensures Difference(Totals(receipts), i) == receipts[i].gasUsed
    {
      assert RunningAt(receipts, i);
    }
  }

  /** The gas of each transaction can be recovered from the receipts' cumulative
      fields alone. */
  lemma DifferencesRecover(s: State, block: Block)
    requires Process(s, block).error.None?
    ensures var receipts := Process(s, block).receipts;
            forall i :: 0 <= i < |receipts| ==> Difference(Totals(receipts), i) == receipts[i].gasUsed
  {
    BlockGas(s, block);
    RunningDifferences(Process(s, block).receipts);
  }
}
