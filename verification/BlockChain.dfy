/** The block chain object of core/blockchain.go in block mode: database tables
    and heads updated in place. Each method is proved to do what the functions
    of `BlockMode` say. */
module BlockChainObject {
  import opened Wrappers
  import opened ChainStore
  import opened BlockMode
  import opened BlockModeProofs

  class BlockChain {
    const genesis: Header
    var headers: Headers
    var bodies: map<Hash, seq<Hash>>
    var td: map<Hash, nat>
    var canon: map<nat, Hash>
    var currentBlock: Block
    var currentHeader: Header
    var currentFastBlock: Header
    var blockReceipts: map<Hash, seq<Receipt>>
    var txs: map<Hash, TxMeta>
    var receipts: map<Hash, Receipt>

    ghost function View(): State
      reads this
    {
      State(genesis, headers, bodies, td, canon, currentBlock, currentHeader, currentFastBlock,
            blockReceipts, txs, receipts)
    }

    constructor (g: Header)
      ensures View() == Initial(g)
    {
      genesis, headers, bodies := g, map[g.hash := g], map[g.hash := []];
      td, canon := map[g.hash := g.difficulty], map[0 := g.hash];
      currentBlock, currentHeader, currentFastBlock := Block(g, []), g, g;
      blockReceipts, txs, receipts := map[], map[], map[];
    }

    function Get(h: Hash): (b: Option<Block>)
      reads this
      ensures b == GetBlock(View(), h)
    {
      if h in headers && h in bodies then Some(Block(headers[h], bodies[h])) else None
    }

    method InsertHead(b: Block)
      modifies this
      ensures View() == Insert(old(View()), b)
    {
      var n, h := b.header.number, b.header.hash;
      var updateHeads := !(n in canon && canon[n] == h);
      canon := canon[n := h];
      currentBlock := b;
      if updateHeads {
        currentHeader := b.header;
        currentFastBlock := b.header;
      }
    }

    method WriteTransactions(b: Block)
      modifies `txs
      ensures txs == WithTxs(old(txs), b, |b.txs|)
    {
      var i := 0;
      while i < |b.txs|
        invariant i <= |b.txs|
        invariant txs == WithTxs(old(txs), b, i)
      {
        txs := txs[b.txs[i] := TxMeta(b.header.hash, b.header.number, i)];
        i := i + 1;
      }
    }

    method WriteReceipts(rs: seq<Receipt>)
      modifies `receipts
      ensures receipts == BlockMode.WithReceipts(old(receipts), rs)
    {
      var i := 0;
      while i < |rs|
        invariant i <= |rs|
        invariant receipts == BlockMode.WithReceipts(old(receipts), rs[..i])
      {
        assert rs[..i + 1][..i] == rs[..i];
        receipts := receipts[rs[i].txHash := rs[i]];
        i := i + 1;
      }
      assert rs[..i] == rs;
    }

    method PublishBlock(b: Block, rs: seq<Receipt>)
      modifies this
      ensures View() == Publish(old(View()), b, rs)
    {
      WriteTransactions(b);
      WriteReceipts(rs);
    }

    /** Adopts the blocks in the given order and collects their transactions. */
    method AdoptBranch(newChain: seq<Block>) returns (addedTxs: seq<Hash>)
      modifies this
      ensures View() == AdoptAll(old(View()), newChain)
      ensures forall t :: t in addedTxs <==> t in TxsOf(newChain)
    {
      addedTxs := [];
      var i := 0;
      while i < |newChain|
        invariant i <= |newChain|
        invariant View() == AdoptAll(old(View()), newChain[..i])
        invariant forall t :: t in addedTxs <==> t in TxsOf(newChain[..i])
      {
        var b := newChain[i];
        assert newChain[..i + 1][..i] == newChain[..i];
        AppendTxs(newChain[..i], b, addedTxs);
        assert newChain[..i] + [b] == newChain[..i + 1];
        InsertHead(b);
        PublishBlock(b, ReceiptsOf(blockReceipts, b.header.hash));
        addedTxs := addedTxs + b.txs;
        i := i + 1;
      }
      assert newChain[..i] == newChain;
    }

    /** Drops the lookup entries of `deletedTxs` that are not in `addedTxs`. */
    method DropTxs(deletedTxs: seq<Hash>, addedTxs: seq<Hash>)
      modifies `txs, `receipts
      ensures txs == old(txs) - (set t | t in deletedTxs && t !in addedTxs)
      ensures receipts == old(receipts) - (set t | t in deletedTxs && t !in addedTxs)
    {
      var j := 0;
      while j < |deletedTxs|
        invariant j <= |deletedTxs|
        invariant txs == old(txs) - (set t | t in deletedTxs[..j] && t !in addedTxs)
        invariant receipts == old(receipts) - (set t | t in deletedTxs[..j] && t !in addedTxs)
      {
        var t := deletedTxs[j];
        assert deletedTxs[..j + 1] == deletedTxs[..j] + [t];
        if t !in addedTxs {
          receipts := receipts - {t};
          txs := txs - {t};
        }
        j := j + 1;
      }
      assert deletedTxs[..j] == deletedTxs;
    }

    static lemma AppendTxs(bs: seq<Block>, b: Block, txs: seq<Hash>)
      requires forall t :: t in txs <==> t in TxsOf(bs)
      ensures forall t :: t in txs + b.txs <==> t in TxsOf(bs + [b])
    {
      forall t ensures t in TxsOf(bs + [b]) <==> t in TxsOf(bs) || t in b.txs {
        TxsOfSnoc(bs + [b], t);
        assert (bs + [b])[..|bs|] == bs;
      }
    }

    /** The branch from `tip` down to just above `at` has been walked. */
    static ghost predicate Walked(s: State, p: seq<Header>, tip: Block, at: Block, branch: seq<Block>) {
      && BodiesStored(s, p)
      && at.header.number < |p| && p[at.header.number] == at.header
      && at == (if at.header.number == |p| - 1 then tip else Block(at.header, GetBlock(s, at.header.hash).value.txs))
      && branch == Branch(s, tip, p, at.header.number + 1)
    }

    /** One step down the branch. */
    static lemma WalkStep(s: State, h: Header, tip: Block, at: Block, branch: seq<Block>) returns (up: Block)
      requires StoreInv(s) && Connected(s.headers, s.genesis, h) && h == tip.header
      requires Walked(s, Path(s.headers, s.genesis, h), tip, at, branch) && at.header.number > 0
      ensures GetBlock(s, at.header.parent) == Some(up) && up.header.number == at.header.number - 1
      ensures Walked(s, Path(s.headers, s.genesis, h), tip, up, branch + [at])
    {
      var p, n := Path(s.headers, s.genesis, h), at.header.number;
      PathAt(s.headers, s.genesis, h, n - 1);
      up := Block(p[n - 1], s.bodies[p[n - 1].hash]);
      assert Branch(s, tip, p, n) == Branch(s, tip, p, n + 1) + [at];
    }

    /** What both walks of `reorg` start from. */
    ghost predicate CanWalk(oldStart: Block, newStart: Block)
      reads this
    {
      && StoreInv(View()) && HeadInv(View()) && oldStart == currentBlock
      && newStart.header.hash !in headers && Connected(headers, genesis, newStart.header)
    }

    /** Walks one branch down to the given number. */
    method Descend(start: Block, number: nat) returns (at: Option<Block>, branch: seq<Block>)
      requires StoreInv(View()) && Connected(headers, genesis, start.header) && number <= start.header.number
      ensures at.Some? && at.value.header.number == number
      ensures Walked(View(), Path(headers, genesis, start.header), start, at.value, branch)
    {
      ghost var p := Path(headers, genesis, start.header);
      PathBodies(View(), start.header);
      at, branch := Some(start), [];
      while at.Some? && at.value.header.number != number
        invariant at.Some? && number <= at.value.header.number
        invariant Walked(View(), p, start, at.value, branch)
        decreases if at.Some? then at.value.header.number else 0
      {
        ghost var up := WalkStep(View(), start.header, start, at.value, branch);
        branch := branch + [at.value];
        at := Get(at.value.header.parent);
      }
    }

    /** Both branches one step down. */
    static lemma WalkBoth(s: State, oldStart: Block, newStart: Block, o: Block, n: Block, dead: seq<Block>, newChain: seq<Block>)
        returns (o': Block, n': Block)
      requires StoreInv(s) && Connected(s.headers, s.genesis, oldStart.header) && Connected(s.headers, s.genesis, newStart.header)
      requires Parting(s, oldStart, newStart, o, n, dead, newChain) && o.header.hash != n.header.hash
      ensures GetBlock(s, o.header.parent) == Some(o') && GetBlock(s, n.header.parent) == Some(n')
      ensures n'.header.number < n.header.number
      ensures Parting(s, oldStart, newStart, o', n', dead + [o], newChain + [n])
    {
      AboveGenesis(s, oldStart, newStart, o, n);
      o' := WalkStep(s, oldStart.header, oldStart, o, dead);
      n' := WalkStep(s, newStart.header, newStart, n, newChain);
    }

    /** The walks are level, and have not met before. */
    static ghost predicate Parting(s: State, oldStart: Block, newStart: Block, o: Block, n: Block, dead: seq<Block>, newChain: seq<Block>)
      requires StoreInv(s) && Connected(s.headers, s.genesis, oldStart.header) && Connected(s.headers, s.genesis, newStart.header)
    {
      var was, will := Path(s.headers, s.genesis, oldStart.header), Path(s.headers, s.genesis, newStart.header);
      && o.header.number == n.header.number
      && Walked(s, was, oldStart, o, dead) && Walked(s, will, newStart, n, newChain)
      && var k := n.header.number + 1; k < |was| && k < |will| ==> was[k] != will[k]
    }

    /** Both paths start at genesis, so walks that differ are above it. */
    static lemma AboveGenesis(s: State, oldStart: Block, newStart: Block, o: Block, n: Block)
      requires StoreInv(s) && Connected(s.headers, s.genesis, oldStart.header) && Connected(s.headers, s.genesis, newStart.header)
      requires o.header.number == n.header.number && o.header.hash != n.header.hash
      requires var p := Path(s.headers, s.genesis, oldStart.header); o.header.number < |p| && p[o.header.number] == o.header
      requires var p := Path(s.headers, s.genesis, newStart.header); n.header.number < |p| && p[n.header.number] == n.header
      ensures o.header.number > 0
    {
      PathAt(s.headers, s.genesis, oldStart.header, 0);
      PathAt(s.headers, s.genesis, newStart.header, 0);
    }

    /** Walks down both branches to the common ancestor. */
    method Meet(oldStart: Block, newStart: Block, oldAt: Block, newAt: Block, dead: seq<Block>, fresh': seq<Block>)
      returns (ok: bool, deleted: seq<Block>, newChain: seq<Block>)
      requires CanWalk(oldStart, newStart) && Parting(View(), oldStart, newStart, oldAt, newAt, dead, fresh')
      ensures ok
      ensures var was, will := Path(headers, genesis, oldStart.header), Path(headers, genesis, newStart.header);
              && deleted == Branch(View(), oldStart, was, Fork(was, will))
              && newChain == Branch(View(), newStart, will, Fork(was, will))
    {
      var oldBlock, newBlock := Some(oldAt), Some(newAt);
      deleted, newChain := dead, fresh';
      while oldBlock.value.header.hash != newBlock.value.header.hash
        invariant oldBlock.Some? && newBlock.Some?
        invariant Parting(View(), oldStart, newStart, oldBlock.value, newBlock.value, deleted, newChain)
        decreases newBlock.value.header.number
      {
        ghost var o', n' := WalkBoth(View(), oldStart, newStart, oldBlock.value, newBlock.value, deleted, newChain);
        newChain := newChain + [newBlock.value];
        deleted := deleted + [oldBlock.value];
        oldBlock, newBlock := Get(oldBlock.value.header.parent), Get(newBlock.value.header.parent);
        if oldBlock.None? || newBlock.None? {
          return false, deleted, newChain;
        }
      }
      Met(View(), oldStart, newStart, oldBlock.value, newBlock.value, deleted, newChain);
      ok := true;
    }

    /** The walks of `reorg`: they meet at the common ancestor. */
    method FindFork(oldStart: Block, newStart: Block) returns (ok: bool, deleted: seq<Block>, newChain: seq<Block>)
      requires CanWalk(oldStart, newStart)
      ensures ok
      ensures var was, will := Path(headers, genesis, oldStart.header), Path(headers, genesis, newStart.header);
              && BodiesStored(View(), was) && BodiesStored(View(), will)
              && deleted == Branch(View(), oldStart, was, Fork(was, will))
              && newChain == Branch(View(), newStart, will, Fork(was, will))
    {
      PathBodies(View(), oldStart.header);
      PathBodies(View(), newStart.header);
      var oldBlock, newBlock := Some(oldStart), Some(newStart);
      deleted, newChain := [], [];
      if oldStart.header.number > newStart.header.number {
        oldBlock, deleted := Descend(oldStart, newStart.header.number);
      } else {
        newBlock, newChain := Descend(newStart, oldStart.header.number);
      }
      if oldBlock.None? || newBlock.None? {
        return false, deleted, newChain;
      }
      ok, deleted, newChain := Meet(oldStart, newStart, oldBlock.value, newBlock.value, deleted, newChain);
    }

    method TxsOfBlocks(bs: seq<Block>) returns (txs: seq<Hash>)
      ensures forall t :: t in txs <==> t in TxsOf(bs)
    {
      txs := [];
      var i := 0;
      while i < |bs|
        invariant i <= |bs|
        invariant forall t :: t in txs <==> t in TxsOf(bs[..i])
      {
        AppendTxs(bs[..i], bs[i], txs);
        assert bs[..i] + [bs[i]] == bs[..i + 1];
        txs := txs + bs[i].txs;
        i := i + 1;
      }
      assert bs[..i] == bs;
    }

    /** The second half of `reorg`: adopt the new branch tip first, then drop
        the transactions found only on the old one. */
    method Rewrite(deleted: seq<Block>, newChain: seq<Block>)
      modifies this
      ensures View() == var a, gone := AdoptAll(old(View()), newChain), TxsOf(deleted) - TxsOf(newChain);
                        a.(txs := a.txs - gone, receipts := a.receipts - gone)
    {
      var deletedTxs := TxsOfBlocks(deleted);
      var addedTxs := AdoptBranch(newChain);
      ghost var gone := TxsOf(deleted) - TxsOf(newChain);
      assert (set t | t in deletedTxs && t !in addedTxs) == gone;
      DropTxs(deletedTxs, addedTxs);
    }

    /** `reorg`: the branches above the common ancestor are swapped. */
    method Reorg(oldStart: Block, newStart: Block) returns (ok: bool)
      requires CanWalk(oldStart, newStart)
      modifies this
      ensures ok
      ensures View() == Reorganised(old(View()), newStart)
    {
      var deleted, newChain;
      ok, deleted, newChain := FindFork(oldStart, newStart);
      if !ok {
        return;
      }
      Rewrite(deleted, newChain);
    }

    /** Equal hashes at equal numbers: this is the common ancestor. */
    static lemma Met(s: State, oldStart: Block, newStart: Block, o: Block, n: Block, dead: seq<Block>, newChain: seq<Block>)
      requires StoreInv(s) && HeadInv(s) && oldStart == s.current
      requires newStart.header.hash !in s.headers && Connected(s.headers, s.genesis, newStart.header)
      requires Parting(s, oldStart, newStart, o, n, dead, newChain) && o.header.hash == n.header.hash
      ensures var was, will := Path(s.headers, s.genesis, oldStart.header), Path(s.headers, s.genesis, newStart.header);
              var k := Fork(was, will);
              newChain == Branch(s, newStart, will, k) && dead == Branch(s, oldStart, was, k)
    {
      var was, will := Path(s.headers, s.genesis, oldStart.header), Path(s.headers, s.genesis, newStart.header);
      var m := n.header.number;
      SameBelow(s, oldStart, newStart, m);
      ForkUnique(was, will, m + 1);
    }

    static lemma SameBelow(s: State, oldStart: Block, newStart: Block, m: nat)
      requires StoreInv(s) && HeadInv(s) && oldStart == s.current
      requires newStart.header.hash !in s.headers && Connected(s.headers, s.genesis, newStart.header)
      requires var was, will := Path(s.headers, s.genesis, oldStart.header), Path(s.headers, s.genesis, newStart.header);
               m < |was| && m < |will| && was[m].hash == will[m].hash
      ensures Path(s.headers, s.genesis, oldStart.header)[..m + 1] == Path(s.headers, s.genesis, newStart.header)[..m + 1]
    {
      PathAt(s.headers, s.genesis, oldStart.header, m);
      PathAt(s.headers, s.genesis, newStart.header, m);
    }

    /** `WriteBlock`. */
    method Write(b: Block) returns (status: WriteStatus)
      requires StoreInv(View()) && HeadInv(View()) && Linked(View(), b.header)
      modifies this
      ensures (View(), status) == WriteBlock(old(View()), b)
    {
      if b.header.parent !in td {
        return NonStat;
      }
      var newTd := td[b.header.parent] + b.header.difficulty;
      if newTd > td[currentBlock.header.hash] {
        if b.header.parent != currentBlock.header.hash {
          TdOfLinked(View(), b.header);
          HeavierIsNew(View(), b);
          ReorgFrame(View(), b);
          var ok := Reorg(currentBlock, b);
          if !ok {
            return NonStat;
          }
        }
        InsertHead(b);
        status := CanonStat;
      } else {
        status := SideStat;
      }
      td := td[b.header.hash := newTd];
      bodies := bodies[b.header.hash := b.txs];
      headers := headers[b.header.hash := b.header];
    }

    /** The part of `InsertChain` that follows processing, for one block. */
    method InsertProcessed(b: Block, rs: seq<Receipt>) returns (status: WriteStatus)
      requires StoreInv(View()) && HeadInv(View()) && Linked(View(), b.header)
      modifies this
      ensures View() == InsertBlock(old(View()), b, rs)
    {
      StoreReceipts(b, rs);
      status := Write(b);
      if status == CanonStat {
        PublishBlock(b, rs);
      }
    }

    method StoreReceipts(b: Block, rs: seq<Receipt>)
      requires StoreInv(View()) && HeadInv(View()) && Linked(View(), b.header)
      modifies `blockReceipts
      ensures StoreInv(View()) && HeadInv(View()) && Linked(View(), b.header)
      ensures View() == old(View()).(blockReceipts := old(blockReceipts)[b.header.hash := rs])
    {
      blockReceipts := blockReceipts[b.header.hash := rs];
    }
  }
}
