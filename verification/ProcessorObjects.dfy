/** The loops of block processing over the mutable state database. */
module ProcessorObjects {
  import opened Wrappers
  import opened WorldState
  import opened Execution
  import opened StateTransition
  import opened StateProcessor
  import opened StateObjects

  /** Drops the self-destructed accounts one by one. */
  method IntermediateRoot(db: StateDB)
    modifies db
    ensures db.View() == Finalise(old(db.View()))
  {
    db.refund := 0;
    ghost var before := db.accounts;
    var todo := db.accounts.Keys;
    while todo != {}
      invariant todo <= db.accounts.Keys <= before.Keys
      invariant forall a: Addr :: a in db.accounts ==> db.accounts[a] == before[a]
      invariant forall a: Addr :: a in before && (a in todo || !before[a].remove) ==> a in db.accounts
      invariant forall a: Addr :: a in db.accounts && a !in todo ==> !before[a].remove
      invariant db.refund == 0
      invariant db.burnt + Total(db.accounts) == old(db.burnt) + Total(before)
    {
      var a :| a in todo;
      todo := todo - {a};
      if db.accounts[a].remove {
        TotalWithout(db.accounts, a);
        db.burnt := db.burnt + db.accounts[a].balance;
        db.accounts := db.accounts - {a};
      }
    }
    assert db.accounts == Alive(before);
    TotalSplit(before);
  }

  method ApplyTransaction(db: StateDB, gp: GasPool, coinbase: Addr, tx: Tx, usedGas: nat, ghost p: Progress)
    returns (used: nat, receipt: Receipt, error: Option<TxError>)
    requires p == Progress(db.View(), gp.gas, usedGas, p.receipts, None)
    modifies db, gp
    ensures Progress(db.View(), gp.gas, used, if error.Some? then [] else p.receipts + [receipt], error) ==
            Apply(p, coinbase, tx)
  {
    var st := new Transitioner(db, gp, tx.msg, coinbase, tx.script);
    var gas;
    gas, error := st.TransitionDb();
    if error.Some? {
      return usedGas, Receipt(0, 0), error;
    }
    used := usedGas + gas;
    IntermediateRoot(db);
    receipt := Receipt(used, gas);
  }

  method AccumulateRewards(db: StateDB, block: Block)
    modifies db
    ensures db.View() == Rewarded(old(db.View()), block)
  {
    var reward := BLOCK_REWARD;
    for i := 0 to |block.uncles|
      invariant db.View() == PayUncles(old(db.View()), block.number, block.uncles[..i])
      invariant reward == MinerReward(i)
    {
      var uncle := block.uncles[i];
      var r := uncle.number + 8;
      var share := r - block.number;
      share := share * BLOCK_REWARD;
      share := share / 8;
      assert block.uncles[..i + 1][..i] == block.uncles[..i];
      db.Credit(uncle.coinbase, share);
      reward := reward + BLOCK_REWARD / 32;
    }
    assert block.uncles[..|block.uncles|] == block.uncles;
    db.Credit(block.coinbase, reward);
  }

  method ApplyNext(db: StateDB, gp: GasPool, block: Block, i: nat, ghost s: State, receipts: seq<Receipt>, used: nat)
    returns (receipts': seq<Receipt>, used': nat, error: Option<TxError>)
    requires i < |block.txs| && Progress(db.View(), gp.gas, used, receipts, None) == ApplyAll(s, block, i)
    modifies db, gp
    ensures var q := Progress(db.View(), gp.gas, used', receipts', error);
            q == ApplyAll(s, block, i + 1) && (error.Some? ==> q == ApplyAll(s, block, |block.txs|))
  {
    ghost var p := Progress(db.View(), gp.gas, used, receipts, None);
    var receipt;
    used', receipt, error := ApplyTransaction(db, gp, block.coinbase, block.txs[i], used, p);
    receipts' := if error.Some? then [] else receipts + [receipt];
    Advance(s, block, i, p, Progress(db.View(), gp.gas, used', receipts', error));
  }

  method ApplyTransactions(db: StateDB, gp: GasPool, block: Block)
    returns (receipts: seq<Receipt>, used: nat, error: Option<TxError>)
    requires gp.gas == block.gasLimit
    modifies db, gp
    ensures Progress(db.View(), gp.gas, used, receipts, error) == ApplyAll(old(db.View()), block, |block.txs|)
  {
    receipts, used, error := [], 0, None;
    var i := 0;
    while i < |block.txs| && error.None?
      invariant i <= |block.txs|
      invariant Progress(db.View(), gp.gas, used, receipts, error) ==
                ApplyAll(old(db.View()), block, if error.Some? then |block.txs| else i)
    {
      receipts, used, error := ApplyNext(db, gp, block, i, old(db.View()), receipts, used);
      i := i + 1;
    }
  }

  /** `Process`: stops at the first transaction that cannot be applied. */
  method ProcessBlock(db: StateDB, block: Block)
    returns (receipts: seq<Receipt>, used: nat, error: Option<TxError>, ghost pool: nat)
    modifies db
    ensures Progress(db.View(), pool, used, receipts, error) == Process(old(db.View()), block)
  {
    var gp := new GasPool();
    gp.AddGas(block.gasLimit);
    receipts, used, error := ApplyTransactions(db, gp, block);
    pool := gp.gas;
    if error.None? {
      AccumulateRewards(db, block);
    }
  }

  lemma Advance(s: State, block: Block, i: nat, p: Progress, q: Progress)
    requires i < |block.txs| && p == ApplyAll(s, block, i) && p.error.None?
    requires q == Apply(p, block.coinbase, block.txs[i])
    ensures q == ApplyAll(s, block, i + 1)
    ensures q.error.Some? ==> q == ApplyAll(s, block, |block.txs|)
  {
    Unfold(s, block, i);
    if q.error.Some? {
      ErrorStays(s, block, i + 1, |block.txs|);
    }
  }

  lemma {:induction false} ErrorStays(s: State, block: Block, n: nat, m: nat)
    requires n <= m <= |block.txs| && ApplyAll(s, block, n).error.Some?
    ensures ApplyAll(s, block, m) == ApplyAll(s, block, n)
    decreases m
  {
    if n < m {
      ErrorStays(s, block, n, m - 1);
    }
  }

  /** What fast sync does with downloaded receipts, in place: the gas of each
      transaction is the difference of neighbouring totals. */
  method DeriveGasUsed(receipts: array<Receipt>)
    modifies receipts
    ensures forall i :: 0 <= i < receipts.Length ==>
              receipts[i] == Receipt(old(receipts[i].cumulative), Difference(Totals(old(receipts[..])), i))
  {
    for j := 0 to receipts.Length
      invariant forall i :: 0 <= i < receipts.Length ==> receipts[i].cumulative == old(receipts[i].cumulative)
      invariant forall i :: 0 <= i < j ==> receipts[i].gasUsed == Difference(Totals(old(receipts[..])), i)
    {
      if j == 0 {
        receipts[j] := receipts[j].(gasUsed := receipts[j].cumulative);
      } else {
        receipts[j] := receipts[j].(gasUsed := receipts[j].cumulative as int - receipts[j - 1].cumulative);
      }
    }
  }
}
