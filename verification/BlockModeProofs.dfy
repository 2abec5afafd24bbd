/** Every run of block insertions keeps the index, the fork choice and the
    lookup in step with the head's ancestor path. */
module BlockModeProofs {
  import opened ChainStore
  import opened BlockMode

  // ---------- the store ----------

  lemma StoredAt(s: State, h: Hash)
    requires StoreInv(s) && h in s.headers
    ensures Connected(s.headers, s.genesis, s.headers[h])
    ensures s.td[h] == TotalDifficulty(Path(s.headers, s.genesis, s.headers[h]))
    ensures s.headers[h] == s.genesis || s.headers[h].difficulty > 0
  {
    assert Stored(s.headers, h);
  }

  /** A block's own total difficulty is its parent's plus its difficulty. */
  lemma TdOfLinked(s: State, h: Header)
    requires StoreInv(s) && Linked(s, h) && h.parent in s.headers
    ensures Connected(s.headers, s.genesis, h)
    ensures Path(s.headers, s.genesis, h) == Path(s.headers, s.genesis, s.headers[h.parent]) + [h]
    ensures TotalDifficulty(Path(s.headers, s.genesis, h)) == s.td[h.parent] + h.difficulty
  {
    StoredAt(s, h.parent);
    LinkedConnected(s, h);
    var p := Path(s.headers, s.genesis, h);
    assert p[..|p| - 1] == Path(s.headers, s.genesis, s.headers[h.parent]);
  }

  /** Only an unknown block can be heavier than a head of maximal difficulty. */
  lemma HeavierIsNew(s: State, b: Block)
    requires StoreInv(s) && HeadInv(s) && Linked(s, b.header) && b.header.parent in s.headers
    requires Heavier(s, b)
    ensures b.header.hash !in s.headers
  {
    if b.header.hash in s.headers {
      TdOfLinked(s, b.header);
      StoredAt(s, b.header.hash);
    }
  }

  /** `s'` is `s` with `b` stored; index, heads and lookup are left open. */
  ghost predicate StoresBlock(s: State, b: Block, s': State) {
    && s'.genesis == s.genesis
    && s'.headers == s.headers[b.header.hash := b.header]
    && s'.bodies == s.bodies[b.header.hash := b.txs]
    && b.header.parent in s.td
    && s'.td == s.td[b.header.hash := s.td[b.header.parent] + b.header.difficulty]
  }

  /** Storing a block changes no path, that of the block included. */
  lemma PathKept(s: State, b: Block, s': State, h: Header)
    requires StoreInv(s) && Linked(s, b.header) && StoresBlock(s, b, s')
    requires h == b.header || (h.hash in s.headers && s.headers[h.hash] == h)
    ensures Connected(s'.headers, s.genesis, h) && Connected(s.headers, s.genesis, h)
    ensures Path(s'.headers, s.genesis, h) == Path(s.headers, s.genesis, h)
  {
    if h == b.header {
      TdOfLinked(s, h);
    } else {
      StoredAt(s, h.hash);
    }
    PathGrows(s.headers, s'.headers, s.genesis, h);
  }

  lemma StoredKept(s: State, b: Block, s': State, h: Hash)
    requires StoreInv(s) && Linked(s, b.header) && StoresBlock(s, b, s') && Stored(s'.headers, h)
    ensures Connected(s'.headers, s'.genesis, s'.headers[h])
    ensures s'.td[h] == TotalDifficulty(Path(s'.headers, s'.genesis, s'.headers[h]))
    ensures s'.headers[h] == s'.genesis || s'.headers[h].difficulty > 0
  {
    PathKept(s, b, s', s'.headers[h]);
    if h == b.header.hash {
      TdOfLinked(s, b.header);
    } else {
      StoredAt(s, h);
    }
  }

  lemma StoreKept(s: State, b: Block, s': State)
    requires StoreInv(s) && Linked(s, b.header) && StoresBlock(s, b, s')
    ensures StoreInv(s')
  {
    forall h | Stored(s'.headers, h)
      ensures Connected(s'.headers, s'.genesis, s'.headers[h])
      ensures s'.td[h] == TotalDifficulty(Path(s'.headers, s'.genesis, s'.headers[h]))
      ensures s'.headers[h] == s'.genesis || s'.headers[h].difficulty > 0
    {
      StoredKept(s, b, s', h);
    }
  }

  // ---------- adopting a branch ----------

  lemma {:induction false} AdoptFrame(s: State, bs: seq<Block>)
    ensures var a := AdoptAll(s, bs);
            && a.genesis == s.genesis && a.headers == s.headers && a.bodies == s.bodies
            && a.td == s.td && a.blockReceipts == s.blockReceipts
  {
    if bs != [] {
      AdoptFrame(s, bs[..|bs| - 1]);
    }
  }

  /** The index at `n` once the top `j` blocks of `p` have been put into it. */
  ghost predicate IndexedAt(canon: map<nat, Hash>, canon': map<nat, Hash>, p: seq<Header>, j: nat, n: nat) {
    if |p| - j <= n < |p| then n in canon' && canon'[n] == p[n].hash
    else (n in canon' <==> n in canon) && (n in canon ==> canon'[n] == canon[n])
  }

  lemma AdoptLast(s: State, bs: seq<Block>, j: nat)
    requires 0 < j <= |bs|
    ensures AdoptAll(s, bs[..j]) == Adopt(AdoptAll(s, bs[..j - 1]), bs[j - 1])
  {
    assert bs[..j][..j - 1] == bs[..j - 1];
  }

  lemma BranchAt(s: State, b: Block, p: seq<Header>, k: nat, j: nat)
    requires k <= |p| && BodiesStored(s, p) && 0 < j <= |p| - k && p[|p| - 1] == b.header
    ensures Branch(s, b, p, k)[j - 1].header == p[|p| - j]
  {
  }

  lemma AdoptCanon(a: State, x: Block, p: seq<Header>, j: nat, canon: map<nat, Hash>, n: nat)
    requires 0 < j <= |p| && x.header == p[|p| - j] && x.header.number == |p| - j
    requires IndexedAt(canon, a.canon, p, j - 1, n)
    ensures IndexedAt(canon, Adopt(a, x).canon, p, j, n)
  {
  }

  /** Adopting the branch above position `k` rewrites the index exactly there. */
  lemma {:induction false} AdoptIndex(s: State, b: Block, p: seq<Header>, k: nat, j: nat, n: nat)
    requires k <= |p| && BodiesStored(s, p) && (|p| > 0 ==> p[|p| - 1] == b.header)
    requires forall m :: 0 <= m < |p| ==> p[m].number == m
    requires j <= |p| - k
    ensures IndexedAt(s.canon, AdoptAll(s, Branch(s, b, p, k)[..j]).canon, p, j, n)
    decreases j
  {
    if j > 0 {
      var bs := Branch(s, b, p, k);
      AdoptIndex(s, b, p, k, j - 1, n);
      AdoptLast(s, bs, j);
      BranchAt(s, b, p, k, j);
      AdoptCanon(AdoptAll(s, bs[..j - 1]), bs[j - 1], p, j, s.canon, n);
    }
  }

  lemma {:induction false} WithTxsKeys(m: map<Hash, TxMeta>, b: Block, n: nat, t: Hash)
    requires n <= |b.txs|
    ensures t in WithTxs(m, b, n) <==> t in m || t in b.txs[..n]
    ensures t !in b.txs[..n] && t in m ==> WithTxs(m, b, n)[t] == m[t]
  {
    if n > 0 {
      WithTxsKeys(m, b, n - 1, t);
      assert b.txs[..n] == b.txs[..n - 1] + [b.txs[n - 1]];
    }
  }

  lemma {:induction false} WithTxsAt(m: map<Hash, TxMeta>, b: Block, n: nat, i: nat)
    requires i < n <= |b.txs|
    requires forall x, y :: 0 <= x < y < |b.txs| ==> b.txs[x] != b.txs[y]
    ensures b.txs[i] in WithTxs(m, b, n)
    ensures WithTxs(m, b, n)[b.txs[i]] == TxMeta(b.header.hash, b.header.number, i)
  {
    if i < n - 1 {
      WithTxsAt(m, b, n - 1, i);
    }
  }

  lemma {:induction false} WithReceiptsKeys(m: map<Hash, Receipt>, txs: seq<Hash>, rs: seq<Receipt>, t: Hash)
    requires MatchReceipts(txs, rs)
    ensures t in WithReceipts(m, rs) <==> t in m || t in txs
    ensures t !in txs && t in m ==> WithReceipts(m, rs)[t] == m[t]
    decreases |rs|
  {
    if rs != [] {
      WithReceiptsKeys(m, txs[..|rs| - 1], rs[..|rs| - 1], t);
      assert txs == txs[..|rs| - 1] + [txs[|rs| - 1]];
    }
  }

  lemma {:induction false} WithReceiptsAt(m: map<Hash, Receipt>, txs: seq<Hash>, rs: seq<Receipt>, i: nat)
    requires MatchReceipts(txs, rs) && i < |rs|
    requires forall x, y :: 0 <= x < y < |txs| ==> txs[x] != txs[y]
    ensures txs[i] in WithReceipts(m, rs) && WithReceipts(m, rs)[txs[i]] == rs[i]
    decreases |rs|
  {
    if i < |rs| - 1 {
      WithReceiptsAt(m, txs[..|rs| - 1], rs[..|rs| - 1], i);
    }
  }

  /** No transaction stands at two positions of the blocks. */
  ghost predicate Distinct(bs: seq<Block>) {
    forall x, i, y, j ::
      0 <= x < |bs| && 0 <= i < |bs[x].txs| && 0 <= y < |bs| && 0 <= j < |bs[y].txs| &&
      bs[x].txs[i] == bs[y].txs[j]
      ==> x == y && i == j
  }

  ghost predicate AllReceipts(s: State, bs: seq<Block>) {
    forall x :: 0 <= x < |bs| ==> MatchReceipts(bs[x].txs, ReceiptsOf(s.blockReceipts, bs[x].header.hash))
  }

  lemma TxsOfSnoc(bs: seq<Block>, t: Hash)
    requires bs != []
    ensures t in TxsOf(bs) <==> t in TxsOf(bs[..|bs| - 1]) || t in bs[|bs| - 1].txs
  {
    if t in TxsOf(bs[..|bs| - 1]) {
      var x :| 0 <= x < |bs| - 1 && t in bs[..|bs| - 1][x].txs;
      assert t in bs[x].txs;
    }
    if t in TxsOf(bs) {
      var x :| 0 <= x < |bs| && t in bs[x].txs;
      assert x < |bs| - 1 ==> t in bs[..|bs| - 1][x].txs;
    }
  }

  /** Adopting blocks adds exactly their transactions to the lookup. */
  lemma {:induction false} AdoptKeys(s: State, bs: seq<Block>, t: Hash)
    requires AllReceipts(s, bs)
    ensures t in AdoptAll(s, bs).txs <==> t in s.txs || t in TxsOf(bs)
    ensures t !in TxsOf(bs) && t in s.txs ==> AdoptAll(s, bs).txs[t] == s.txs[t]
    ensures t in AdoptAll(s, bs).receipts <==> t in s.receipts || t in TxsOf(bs)
    ensures t !in TxsOf(bs) && t in s.receipts ==> AdoptAll(s, bs).receipts[t] == s.receipts[t]
    decreases |bs|
  {
    if bs != [] {
      var init, b := bs[..|bs| - 1], bs[|bs| - 1];
      AdoptKeys(s, init, t);
      AdoptFrame(s, init);
      TxsOfSnoc(bs, t);
      var a := AdoptAll(s, init);
      WithTxsKeys(a.txs, b, |b.txs|, t);
      assert b.txs[..|b.txs|] == b.txs;
      WithReceiptsKeys(a.receipts, b.txs, ReceiptsOf(s.blockReceipts, b.header.hash), t);
    }
  }

  ghost predicate Placed(a: State, t: Hash, meta: TxMeta, r: Receipt) {
    t in a.txs && a.txs[t] == meta && t in a.receipts && a.receipts[t] == r
  }

  lemma AdoptPlaces(a: State, b: Block, i: nat)
    requires MatchReceipts(b.txs, ReceiptsOf(a.blockReceipts, b.header.hash)) && i < |b.txs|
    requires forall p, q :: 0 <= p < q < |b.txs| ==> b.txs[p] != b.txs[q]
    ensures Placed(Adopt(a, b), b.txs[i], TxMeta(b.header.hash, b.header.number, i), ReceiptsOf(a.blockReceipts, b.header.hash)[i])
  {
    WithTxsAt(a.txs, b, |b.txs|, i);
    WithReceiptsAt(a.receipts, b.txs, ReceiptsOf(a.blockReceipts, b.header.hash), i);
  }

  lemma AdoptLeaves(a: State, b: Block, t: Hash, meta: TxMeta, r: Receipt)
    requires MatchReceipts(b.txs, ReceiptsOf(a.blockReceipts, b.header.hash)) && t !in b.txs && Placed(a, t, meta, r)
    ensures Placed(Adopt(a, b), t, meta, r)
  {
    WithTxsKeys(a.txs, b, |b.txs|, t);
    assert b.txs[..|b.txs|] == b.txs;
    WithReceiptsKeys(a.receipts, b.txs, ReceiptsOf(a.blockReceipts, b.header.hash), t);
  }

  /** ... each at its position in its block. */
  lemma {:induction false} AdoptAt(s: State, bs: seq<Block>, x: nat, i: nat)
    requires AllReceipts(s, bs) && Distinct(bs) && x < |bs| && i < |bs[x].txs|
    ensures Placed(AdoptAll(s, bs), bs[x].txs[i], TxMeta(bs[x].header.hash, bs[x].header.number, i),
                   ReceiptsOf(s.blockReceipts, bs[x].header.hash)[i])
    decreases |bs|
  {
    var init, b := bs[..|bs| - 1], bs[|bs| - 1];
    AdoptFrame(s, init);
    if x == |bs| - 1 {
      AdoptPlaces(AdoptAll(s, init), b, i);
    } else {
      AdoptAt(s, init, x, i);
      assert bs[x].txs[i] !in b.txs;
      AdoptLeaves(AdoptAll(s, init), b, bs[x].txs[i], TxMeta(bs[x].header.hash, bs[x].header.number, i),
                  ReceiptsOf(s.blockReceipts, bs[x].header.hash)[i]);
    }
  }

  // ---------- the index and the head ----------

  lemma BelowFork(s: State, was: seq<Header>, will: seq<Header>, k: nat, canon: map<nat, Hash>, n: nat)
    requires k <= |was| && k <= |will| && was[..k] == will[..k]
    requires n < k ==> n in s.canon && s.canon[n] == was[n].hash
    requires IndexedAt(s.canon, canon, will, |will| - k, n)
    ensures IndexedAt(s.canon, canon, will, |will|, n)
  {
    if n < k {
      SameInit(will, was, k, n);
    }
  }

  lemma ReorgIndexAt(s: State, b: Block, n: nat)
    requires StoreInv(s) && HeadInv(s) && Connected(s.headers, s.genesis, b.header)
    ensures var p := Path(s.headers, s.genesis, b.header);
            IndexedAt(s.canon, Reorganised(s, b).canon, p, |p|, n)
  {
    var was, will := Path(s.headers, s.genesis, s.current.header), Path(s.headers, s.genesis, b.header);
    var k := Fork(was, will);
    PathBodies(s, b.header);
    forall m | 0 <= m < |will|
      ensures will[m].number == m
    {
      PathAt(s.headers, s.genesis, b.header, m);
    }
    var branch := Branch(s, b, will, k);
    assert branch[..|branch|] == branch;
    AdoptIndex(s, b, will, k, |branch|, n);
    BelowFork(s, was, will, k, AdoptAll(s, branch).canon, n);
  }

  /** After a reorganisation the index follows the new branch up to its tip and
      is untouched above it. */
  lemma ReorgIndex(s: State, b: Block)
    requires StoreInv(s) && HeadInv(s) && Connected(s.headers, s.genesis, b.header)
    ensures var r, p := Reorganised(s, b), Path(s.headers, s.genesis, b.header);
            && (forall n :: 0 <= n < |p| ==> n in r.canon && r.canon[n] == p[n].hash)
            && (forall n :: n >= |p| ==>
                  (n in r.canon <==> n in s.canon) && (n in s.canon ==> r.canon[n] == s.canon[n]))
  {
    var r, p := Reorganised(s, b), Path(s.headers, s.genesis, b.header);
    forall n: nat
      ensures IndexedAt(s.canon, r.canon, p, |p|, n)
    {
      ReorgIndexAt(s, b, n);
    }
    IndexedAll(s.canon, r.canon, p);
  }

  lemma IndexedAll(canon: map<nat, Hash>, canon': map<nat, Hash>, p: seq<Header>)
    requires forall n: nat :: IndexedAt(canon, canon', p, |p|, n)
    ensures forall n :: 0 <= n < |p| ==> n in canon' && canon'[n] == p[n].hash
    ensures forall n :: n >= |p| ==> (n in canon' <==> n in canon) && (n in canon ==> canon'[n] == canon[n])
  {
    forall n | 0 <= n < |p|
      ensures n in canon' && canon'[n] == p[n].hash
    {
      assert IndexedAt(canon, canon', p, |p|, n);
    }
    forall n | n >= |p|
      ensures (n in canon' <==> n in canon) && (n in canon ==> canon'[n] == canon[n])
    {
      assert IndexedAt(canon, canon', p, |p|, n);
    }
  }

  lemma ReorgFrame(s: State, b: Block)
    requires StoreInv(s) && HeadInv(s) && Connected(s.headers, s.genesis, b.header)
    ensures var r := Reorganised(s, b);
            && r.genesis == s.genesis && r.headers == s.headers && r.bodies == s.bodies
            && r.td == s.td && r.blockReceipts == s.blockReceipts
  {
    PathBodies(s, b.header);
    var was, will := Path(s.headers, s.genesis, s.current.header), Path(s.headers, s.genesis, b.header);
    AdoptFrame(s, Branch(s, b, will, Fork(was, will)));
  }

  lemma SideKept(s: State, b: Block, s': State)
    requires StoreInv(s) && HeadInv(s) && Linked(s, b.header) && StoresBlock(s, b, s') && !Heavier(s, b)
    requires b.header.hash in s.bodies ==> s.bodies[b.header.hash] == b.txs
    requires s'.canon == s.canon && s'.current == s.current
    ensures StoreInv(s') && HeadInv(s')
  {
    StoreKept(s, b, s');
    PathKept(s, b, s', s.current.header);
    if b.header.hash in s.headers {
      TdOfLinked(s, b.header);
      StoredAt(s, b.header.hash);
    }
    assert Stored(s'.headers, s.current.header.hash);
  }

  lemma CanonKept(s: State, b: Block, s': State)
    requires StoreInv(s) && HeadInv(s) && Linked(s, b.header) && StoresBlock(s, b, s') && Heavier(s, b)
    requires s'.current == b && Connected(s.headers, s.genesis, b.header)
    requires forall n :: 0 <= n <= b.header.number ==>
               n in s'.canon && s'.canon[n] == Path(s.headers, s.genesis, b.header)[n].hash
    ensures StoreInv(s') && HeadInv(s')
  {
    StoreKept(s, b, s');
    HeavierIsNew(s, b);
    PathKept(s, b, s', b.header);
    assert Stored(s'.headers, b.header.hash);
  }

  /** The index of a child of the head extends the head's. */
  lemma ExtendIndex(s: State, b: Block)
    requires StoreInv(s) && HeadInv(s) && Linked(s, b.header) && b.header.parent == s.current.header.hash
    ensures Connected(s.headers, s.genesis, b.header)
    ensures forall n :: 0 <= n <= b.header.number ==>
              && n in Insert(s, b).canon
              && Insert(s, b).canon[n] == Path(s.headers, s.genesis, b.header)[n].hash
  {
    TdOfLinked(s, b.header);
    var p, q := Path(s.headers, s.genesis, b.header), Path(s.headers, s.genesis, s.current.header);
    assert p == q + [b.header];
  }

  /** The state just before a heavier block is stored: index and head are there. */
  ghost function Headed(s: State, b: Block): State
    requires StoreInv(s) && HeadStored(s) && Connected(s.headers, s.genesis, b.header)
  {
    Insert(if b.header.parent != s.current.header.hash then Reorganised(s, b) else s, b)
  }

  lemma HeadedIndex(s: State, b: Block)
    requires StoreInv(s) && HeadInv(s) && Linked(s, b.header) && b.header.parent in s.headers
    ensures Connected(s.headers, s.genesis, b.header)
    ensures forall n :: 0 <= n <= b.header.number ==>
              n in Headed(s, b).canon && Headed(s, b).canon[n] == Path(s.headers, s.genesis, b.header)[n].hash
    ensures forall n :: n > b.header.number && n in s.canon ==>
              n in Headed(s, b).canon && Headed(s, b).canon[n] == s.canon[n]
  {
    TdOfLinked(s, b.header);
    if b.header.parent != s.current.header.hash {
      ReorgIndex(s, b);
    } else {
      ExtendIndex(s, b);
    }
  }

  /** The index written for a heavier block. */
  lemma CanonIndex(s: State, b: Block)
    requires StoreInv(s) && HeadInv(s) && Linked(s, b.header) && b.header.parent in s.headers && Heavier(s, b)
    ensures Connected(s.headers, s.genesis, b.header)
    ensures WriteBlock(s, b).1 == CanonStat && WriteBlock(s, b).0.current == b && StoresBlock(s, b, WriteBlock(s, b).0)
    ensures WriteBlock(s, b).0.canon == Headed(s, b).canon
    ensures WriteBlock(s, b).0.header == Headed(s, b).header && WriteBlock(s, b).0.fast == Headed(s, b).fast
    ensures WriteBlock(s, b).0.txs == Headed(s, b).txs && WriteBlock(s, b).0.receipts == Headed(s, b).receipts
    ensures WriteBlock(s, b).0.blockReceipts == s.blockReceipts
  {
    TdOfLinked(s, b.header);
    if b.header.parent != s.current.header.hash {
      ReorgFrame(s, b);
    }
  }

  /** One `WriteBlock` keeps the index equal to the head's ancestor path up to
      the head, keeps the head of maximal total difficulty, and moves the head
      exactly to a heavier block. */
  lemma WriteBlockKeepsHead(s: State, b: Block)
    requires StoreInv(s) && HeadInv(s) && Linked(s, b.header)
    requires b.header.hash in s.bodies ==> s.bodies[b.header.hash] == b.txs
    ensures StoreInv(WriteBlock(s, b).0) && HeadInv(WriteBlock(s, b).0)
    ensures WriteBlock(s, b).1 == NonStat <==> b.header.parent !in s.headers
    ensures WriteBlock(s, b).1 == NonStat ==> WriteBlock(s, b).0 == s
    ensures WriteBlock(s, b).1 != NonStat ==> StoresBlock(s, b, WriteBlock(s, b).0)
    ensures WriteBlock(s, b).1 == CanonStat <==> b.header.parent in s.headers && Heavier(s, b)
    ensures WriteBlock(s, b).0.current == if WriteBlock(s, b).1 == CanonStat then b else s.current
  {
    if b.header.parent in s.headers {
      if Heavier(s, b) {
        CanonIndex(s, b);
        HeadedIndex(s, b);
        CanonKept(s, b, WriteBlock(s, b).0);
      } else {
        SideKept(s, b, WriteBlock(s, b).0);
      }
    }
  }

  // ---------- the lookup ----------

  /** `t` stands on path `p` at position `k` or above. */
  ghost predicate OnPath(bodies: map<Hash, seq<Hash>>, p: seq<Header>, k: nat, t: Hash) {
    exists n, i :: k <= n < |p| && At(bodies, p, n, i, t)
  }

  /** A branch carries exactly the transactions of its stretch of path. */
  lemma BranchTxs(s: State, b: Block, p: seq<Header>, k: nat, t: Hash)
    requires k <= |p| && BodiesStored(s, p) && (|p| > 0 ==> p[|p| - 1] == b.header)
    requires forall n :: 0 <= n < |p| - 1 ==> p[n].hash != b.header.hash
    ensures t in TxsOf(Branch(s, b, p, k)) <==> OnPath(s.bodies[b.header.hash := b.txs], p, k, t)
  {
    var bs, bodies := Branch(s, b, p, k), s.bodies[b.header.hash := b.txs];
    if t in TxsOf(bs) {
      var x :| 0 <= x < |bs| && t in bs[x].txs;
      var i :| 0 <= i < |bs[x].txs| && bs[x].txs[i] == t;
      assert At(bodies, p, |p| - 1 - x, i, t);
    }
    if OnPath(bodies, p, k, t) {
      var n, i :| k <= n < |p| && At(bodies, p, n, i, t);
      assert t in bs[|p| - 1 - n].txs;
    }
  }

  lemma BranchDistinct(s: State, b: Block, p: seq<Header>, k: nat)
    requires k <= |p| && BodiesStored(s, p) && (|p| > 0 ==> p[|p| - 1] == b.header)
    requires forall n :: 0 <= n < |p| - 1 ==> p[n].hash != b.header.hash
    requires NoTxTwice(s.bodies[b.header.hash := b.txs], p)
    ensures Distinct(Branch(s, b, p, k))
  {
    var bs, bodies := Branch(s, b, p, k), s.bodies[b.header.hash := b.txs];
    assert forall x :: 0 <= x < |bs| ==> p[|p| - 1 - x].hash in bodies && bs[x].txs == bodies[p[|p| - 1 - x].hash];
  }

  /** `t` is looked up in `d'` as on the stretch of `will` above `k`, and
      otherwise as in `d` unless it stood on that of `was`. */
  ghost predicate TxMoved(d: Tables, d': Tables, was: seq<Header>, will: seq<Header>, k: nat, t: Hash) {
    && (t in d'.txs <==> OnPath(d'.bodies, will, k, t) || (t in d.txs && !OnPath(d.bodies, was, k, t)))
    && (t in d'.receipts <==> t in d'.txs)
    && (t in d'.txs && !OnPath(d'.bodies, will, k, t) ==>
          t in d.txs && d'.txs[t] == d.txs[t] && t in d.receipts && d'.receipts[t] == d.receipts[t])
  }

  /** Replacing the stretch of `was` above `k` by that of `will` in the lookup
      of `was` gives the lookup of `will`. */
  lemma LookupMoves(d: Tables, d': Tables, was: seq<Header>, will: seq<Header>, k: nat)
    requires k <= |was| && k <= |will| && was[..k] == will[..k]
    requires LookupIs(d, was)
    requires forall h :: h in d.bodies ==> h in d'.bodies && d'.bodies[h] == d.bodies[h]
    requires forall n :: 0 <= n < k ==> was[n].hash in d.bodies
    requires d'.blockReceipts == d.blockReceipts && NoTxTwice(d'.bodies, will)
    requires forall t :: TxMoved(d, d', was, will, k, t)
    requires forall n, i :: k <= n < |will| && will[n].hash in d'.bodies && 0 <= i < |d'.bodies[will[n].hash]| ==>
               Found(d', will, n, i)
    ensures LookupIs(d', will)
  {
    forall n, i | 0 <= n < |will| && will[n].hash in d'.bodies && 0 <= i < |d'.bodies[will[n].hash]|
      ensures Found(d', will, n, i)
    {
      if n < k {
        var t := d'.bodies[will[n].hash][i];
        assert will[n] == will[..k][n] == was[..k][n] == was[n];
        assert Found(d, was, n, i);
        assert At(d'.bodies, will, n, i, t);
        assert TxMoved(d, d', was, will, k, t);
        assert !OnPath(d'.bodies, will, k, t);
        forall m, j | 0 <= m < |was| && At(d.bodies, was, m, j, t) ensures m == n {
          assert Found(d, was, m, j);
        }
      }
    }
    forall t | t in d'.txs
      ensures var m := d'.txs[t]; m.number < |will| && will[m.number].hash == m.block && At(d'.bodies, will, m.number, m.index, t)
    {
      assert TxMoved(d, d', was, will, k, t);
      if OnPath(d'.bodies, will, k, t) {
        var n, i :| k <= n < |will| && At(d'.bodies, will, n, i, t);
        assert Found(d', will, n, i);
      } else {
        var m := d.txs[t];
        assert At(d.bodies, was, m.number, m.index, t);
        assert m.number < k;
        assert will[m.number] == will[..k][m.number] == was[..k][m.number] == was[m.number];
      }
    }
    forall t ensures t in d'.receipts <==> t in d'.txs {
      assert TxMoved(d, d', was, will, k, t);
    }
  }

  /** What the swap relies on: `was` is the indexed path and ends in the head,
      `will` ends in the new block `b`, and they part at `k`. */
  ghost predicate Parting(s: State, b: Block, was: seq<Header>, will: seq<Header>, k: nat) {
    && k <= |was| && k <= |will| && was[..k] == will[..k] && k > 0
    && BodiesStored(s, was) && BodiesStored(s, will)
    && was[|was| - 1] == s.current.header && will[|will| - 1] == b.header
    && s.current.header.hash in s.bodies && s.bodies[s.current.header.hash] == s.current.txs
    && b.header.hash !in s.bodies
    && (forall n :: 0 <= n < |was| - 1 ==> was[n].hash != s.current.header.hash)
    && (forall n :: 0 <= n < |will| ==> will[n].number == n)
    && Receipted(s.bodies, s.blockReceipts)
    && MatchReceipts(b.txs, ReceiptsOf(s.blockReceipts, b.header.hash))
    && LookupIs(TablesOf(s), was)
    && NoTxTwice(s.bodies[b.header.hash := b.txs], will)
  }

  /** The tables of `s` once `b`'s body is stored beside them. */
  function Holding(s: State, b: Block): Tables {
    TablesOf(s).(bodies := s.bodies[b.header.hash := b.txs])
  }

  lemma BranchReady(s: State, b: Block, was: seq<Header>, will: seq<Header>, k: nat)
    requires Parting(s, b, was, will, k)
    ensures AllReceipts(s, Branch(s, b, will, k)) && Distinct(Branch(s, b, will, k))
    ensures forall n :: 0 <= n < |will| - 1 ==> will[n].hash != b.header.hash
  {
    BranchDistinct(s, b, will, k);
  }

  lemma SwapTxs(s: State, b: Block, was: seq<Header>, will: seq<Header>, k: nat, t: Hash)
    requires Parting(s, b, was, will, k)
    ensures var swapped := Swap(s, b, was, will, k);
            TxMoved(TablesOf(s), Holding(s, b).(txs := swapped.txs, receipts := swapped.receipts), was, will, k, t)
  {
    BranchReady(s, b, was, will, k);
    BranchTxs(s, b, will, k, t);
    BranchTxs(s, s.current, was, k, t);
    assert s.bodies[s.current.header.hash := s.current.txs] == s.bodies;
    AdoptKeys(s, Branch(s, b, will, k), t);
  }

  lemma BranchBlock(s: State, b: Block, p: seq<Header>, k: nat, n: nat)
    requires k <= n < |p| && BodiesStored(s, p) && p[|p| - 1] == b.header
    requires forall m :: 0 <= m < |p| - 1 ==> p[m].hash != b.header.hash
    ensures var x := Branch(s, b, p, k)[|p| - 1 - n];
            x.header == p[n] && p[n].hash in s.bodies[b.header.hash := b.txs] && x.txs == s.bodies[b.header.hash := b.txs][p[n].hash]
  {
  }

  lemma AdoptedFinds(s: State, b: Block, will: seq<Header>, k: nat, n: nat, i: nat)
    requires k <= n < |will| && BodiesStored(s, will) && will[|will| - 1] == b.header && will[n].number == n
    requires forall m :: 0 <= m < |will| - 1 ==> will[m].hash != b.header.hash
    requires AllReceipts(s, Branch(s, b, will, k)) && Distinct(Branch(s, b, will, k))
    requires will[n].hash in s.bodies[b.header.hash := b.txs] && i < |s.bodies[b.header.hash := b.txs][will[n].hash]|
    ensures i < |ReceiptsOf(s.blockReceipts, will[n].hash)|
    ensures var t := s.bodies[b.header.hash := b.txs][will[n].hash][i];
            && t in TxsOf(Branch(s, b, will, k))
            && Placed(AdoptAll(s, Branch(s, b, will, k)), t, TxMeta(will[n].hash, n, i), ReceiptsOf(s.blockReceipts, will[n].hash)[i])
  {
    BranchBlock(s, b, will, k, n);
    var branch, x := Branch(s, b, will, k), |will| - 1 - n;
    TxInBlocks(branch, x, i);
    AdoptAt(s, branch, x, i);
  }

  lemma TxInBlocks(bs: seq<Block>, x: nat, i: nat)
    requires x < |bs| && i < |bs[x].txs|
    ensures bs[x].txs[i] in TxsOf(bs)
  {
    assert bs[x].txs[i] in bs[x].txs;
  }

  /** Taking other transactions out leaves a placed one findable. */
  lemma FoundInSwap(s: State, b: Block, a: State, gone: set<Hash>, will: seq<Header>, n: nat, i: nat, d: Tables)
    requires n < |will| && d == Holding(s, b).(txs := a.txs - gone, receipts := a.receipts - gone)
    requires will[n].hash in d.bodies && i < |d.bodies[will[n].hash]| && i < |ReceiptsOf(s.blockReceipts, will[n].hash)|
    requires d.bodies[will[n].hash][i] !in gone
    requires Placed(a, d.bodies[will[n].hash][i], TxMeta(will[n].hash, n, i), ReceiptsOf(s.blockReceipts, will[n].hash)[i])
    ensures Found(d, will, n, i)
  {
  }

  lemma SwapFinds(s: State, b: Block, was: seq<Header>, will: seq<Header>, k: nat, n: nat, i: nat)
    requires Parting(s, b, was, will, k) && k <= n < |will| && will[n].hash in s.bodies[b.header.hash := b.txs]
    requires i < |s.bodies[b.header.hash := b.txs][will[n].hash]|
    ensures var r := Swap(s, b, was, will, k);
            Found(Holding(s, b).(txs := r.txs, receipts := r.receipts), will, n, i)
  {
    BranchReady(s, b, was, will, k);
    AdoptedFinds(s, b, will, k, n, i);
    var branch := Branch(s, b, will, k);
    var a, gone := AdoptAll(s, branch), TxsOf(Branch(s, s.current, was, k)) - TxsOf(branch);
    FoundInSwap(s, b, a, gone, will, n, i, Holding(s, b).(txs := a.txs - gone, receipts := a.receipts - gone));
  }

  /** The tables after the branches have been swapped. */
  ghost function Swapped(s: State, b: Block, was: seq<Header>, will: seq<Header>, k: nat): Tables
    requires Parting(s, b, was, will, k)
  {
    var r := Swap(s, b, was, will, k);
    Holding(s, b).(txs := r.txs, receipts := r.receipts)
  }

  lemma SwapMoves(s: State, b: Block, was: seq<Header>, will: seq<Header>, k: nat)
    requires Parting(s, b, was, will, k)
    ensures forall t :: TxMoved(TablesOf(s), Swapped(s, b, was, will, k), was, will, k, t)
  {
    forall t
      ensures TxMoved(TablesOf(s), Swapped(s, b, was, will, k), was, will, k, t)
    {
      SwapTxs(s, b, was, will, k, t);
    }
  }

  lemma SwapFindsAll(s: State, b: Block, was: seq<Header>, will: seq<Header>, k: nat, d: Tables)
    requires Parting(s, b, was, will, k) && d == Swapped(s, b, was, will, k)
    ensures forall n, i :: k <= n < |will| && will[n].hash in d.bodies && 0 <= i < |d.bodies[will[n].hash]| ==>
              Found(d, will, n, i)
  {
    forall n, i | k <= n < |will| && will[n].hash in d.bodies && 0 <= i < |d.bodies[will[n].hash]|
      ensures Found(d, will, n, i)
    {
      SwapFinds(s, b, was, will, k, n, i);
    }
  }

  /** Swapping the branches gives exactly the lookup of the new path. */
  lemma SwapLookup(s: State, b: Block, was: seq<Header>, will: seq<Header>, k: nat)
    requires Parting(s, b, was, will, k)
    ensures var r := Swap(s, b, was, will, k);
            LookupIs(Holding(s, b).(txs := r.txs, receipts := r.receipts), will)
  {
    SwappedLookup(s, b, was, will, k, Swapped(s, b, was, will, k));
  }

  lemma SwappedLookup(s: State, b: Block, was: seq<Header>, will: seq<Header>, k: nat, d: Tables)
    requires Parting(s, b, was, will, k) && d == Swapped(s, b, was, will, k)
    ensures LookupIs(d, will)
  {
    SwapMoves(s, b, was, will, k);
    SwapFindsAll(s, b, was, will, k, d);
    SwappedKeeps(s, b, was, will, k, d);
    LookupMoves(TablesOf(s), d, was, will, k);
  }

  lemma SwappedKeeps(s: State, b: Block, was: seq<Header>, will: seq<Header>, k: nat, d: Tables)
    requires Parting(s, b, was, will, k) && d.bodies == Holding(s, b).bodies && d.blockReceipts == Holding(s, b).blockReceipts
    ensures LookupIs(TablesOf(s), was) && d.blockReceipts == s.blockReceipts && NoTxTwice(d.bodies, will)
    ensures forall h :: h in s.bodies ==> h in d.bodies && d.bodies[h] == s.bodies[h]
    ensures forall n :: 0 <= n < k ==> was[n].hash in s.bodies
  {
  }

  /** The two paths of a reorganisation are parting paths. */
  lemma PathsPart(s: State, b: Block)
    requires StoreInv(s) && HeadInv(s) && LookupInv(s)
    requires Linked(s, b.header) && b.header.parent in s.headers && b.header.hash !in s.headers
    requires MatchReceipts(b.txs, ReceiptsOf(s.blockReceipts, b.header.hash)) && Connected(s.headers, s.genesis, b.header)
    requires NoTxTwice(s.bodies[b.header.hash := b.txs], Path(s.headers, s.genesis, b.header))
    ensures var was, will := Path(s.headers, s.genesis, s.current.header), Path(s.headers, s.genesis, b.header);
            Parting(s, b, was, will, Fork(was, will))
  {
    var was, will := Path(s.headers, s.genesis, s.current.header), Path(s.headers, s.genesis, b.header);
    PathBodies(s, s.current.header);
    PathBodies(s, b.header);
    forall n | 0 <= n < |was| - 1 ensures was[n].hash != s.current.header.hash {
      PathAt(s.headers, s.genesis, s.current.header, n);
    }
    forall n | 0 <= n < |will| ensures will[n].number == n {
      PathAt(s.headers, s.genesis, b.header, n);
    }
  }

  /** The tables `d` after `b` has been published into them. */
  function Published(d: Tables, b: Block): Tables {
    d.(txs := WithTxs(d.txs, b, |b.txs|), receipts := WithReceipts(d.receipts, ReceiptsOf(d.blockReceipts, b.header.hash)))
  }

  /** `b` stands on top of `was` and none of its transactions is there. */
  ghost predicate Extends(d: Tables, b: Block, was: seq<Header>) {
    && |was| == b.header.number && (forall n :: 0 <= n < |was| ==> was[n].hash in d.bodies)
    && b.header.hash !in d.bodies && LookupIs(d, was)
    && MatchReceipts(b.txs, ReceiptsOf(d.blockReceipts, b.header.hash))
    && NoTxTwice(d.bodies[b.header.hash := b.txs], was + [b.header])
  }

  lemma ExtendTx(d: Tables, b: Block, was: seq<Header>, t: Hash)
    requires Extends(d, b, was)
    ensures TxMoved(d, Published(d, b).(bodies := d.bodies[b.header.hash := b.txs]), was, was + [b.header], |was|, t)
  {
    var will, bodies := was + [b.header], d.bodies[b.header.hash := b.txs];
    WithTxsKeys(d.txs, b, |b.txs|, t);
    assert b.txs[..|b.txs|] == b.txs;
    WithReceiptsKeys(d.receipts, b.txs, ReceiptsOf(d.blockReceipts, b.header.hash), t);
    if t in b.txs {
      var i :| 0 <= i < |b.txs| && b.txs[i] == t;
      assert At(bodies, will, |was|, i, t);
    }
    assert OnPath(bodies, will, |was|, t) ==> t in b.txs;
  }

  lemma ExtendFinds(d: Tables, b: Block, was: seq<Header>, i: nat)
    requires Extends(d, b, was) && i < |b.txs|
    ensures Found(Published(d, b).(bodies := d.bodies[b.header.hash := b.txs]), was + [b.header], |was|, i)
  {
    var will, bodies := was + [b.header], d.bodies[b.header.hash := b.txs];
    forall x, y | 0 <= x < y < |b.txs| ensures b.txs[x] != b.txs[y] {
      assert bodies[will[|was|].hash] == b.txs;
    }
    WithTxsAt(d.txs, b, |b.txs|, i);
    WithReceiptsAt(d.receipts, b.txs, ReceiptsOf(d.blockReceipts, b.header.hash), i);
  }

  /** Publishing a child of the head extends the lookup by that block. */
  lemma ExtendLookup(d: Tables, b: Block, was: seq<Header>)
    requires Extends(d, b, was)
    ensures LookupIs(Published(d, b).(bodies := d.bodies[b.header.hash := b.txs]), was + [b.header])
  {
    var k, will := |was|, was + [b.header];
    var d' := Published(d, b).(bodies := d.bodies[b.header.hash := b.txs]);
    forall t ensures TxMoved(d, d', was, will, k, t) {
      ExtendTx(d, b, was, t);
    }
    forall n, i | k <= n < |will| && will[n].hash in d'.bodies && 0 <= i < |d'.bodies[will[n].hash]|
      ensures Found(d', will, n, i)
    {
      ExtendFinds(d, b, was, i);
    }
    assert will[..k] == was[..k];
    LookupMoves(d, d', was, will, k);
  }

  /** Publishing what is already published changes nothing. */
  lemma {:induction false} WithTxsAgain(m: map<Hash, TxMeta>, b: Block, n: nat)
    requires n <= |b.txs|
    requires forall i :: 0 <= i < |b.txs| ==> b.txs[i] in m && m[b.txs[i]] == TxMeta(b.header.hash, b.header.number, i)
    ensures WithTxs(m, b, n) == m
  {
    if n > 0 {
      WithTxsAgain(m, b, n - 1);
    }
  }

  lemma {:induction false} WithReceiptsAgain(m: map<Hash, Receipt>, rs: seq<Receipt>)
    requires forall i :: 0 <= i < |rs| ==> rs[i].txHash in m && m[rs[i].txHash] == rs[i]
    ensures WithReceipts(m, rs) == m
    decreases |rs|
  {
    if rs != [] {
      WithReceiptsAgain(m, rs[..|rs| - 1]);
    }
  }

  lemma RepublishLookup(d: Tables, b: Block, will: seq<Header>)
    requires LookupIs(d, will)
    requires |will| == b.header.number + 1 && will[b.header.number] == b.header
    requires b.header.hash in d.bodies && d.bodies[b.header.hash] == b.txs
    requires MatchReceipts(b.txs, ReceiptsOf(d.blockReceipts, b.header.hash))
    ensures Published(d, b) == d
  {
    forall i | 0 <= i < |b.txs|
      ensures b.txs[i] in d.txs && d.txs[b.txs[i]] == TxMeta(b.header.hash, b.header.number, i)
      ensures b.txs[i] in d.receipts && d.receipts[b.txs[i]] == ReceiptsOf(d.blockReceipts, b.header.hash)[i]
    {
      assert Found(d, will, b.header.number, i);
    }
    WithTxsAgain(d.txs, b, |b.txs|);
    WithReceiptsAgain(d.receipts, ReceiptsOf(d.blockReceipts, b.header.hash));
  }

  /** A heavier block with its receipts at hand, sharing no transaction with
      its ancestors. */
  ghost predicate Ready(s: State, b: Block) {
    && StoreInv(s) && HeadInv(s) && LookupInv(s)
    && Linked(s, b.header) && b.header.parent in s.headers && Heavier(s, b)
    && MatchReceipts(b.txs, ReceiptsOf(s.blockReceipts, b.header.hash)) && Connected(s.headers, s.genesis, b.header)
    && NoTxTwice(s.bodies[b.header.hash := b.txs], Path(s.headers, s.genesis, b.header))
  }

  lemma ExtendPublished(s: State, b: Block)
    requires Ready(s, b) && b.header.parent == s.current.header.hash
    ensures LookupIs(Published(Holding(s, b), b), Path(s.headers, s.genesis, b.header))
  {
    HeavierIsNew(s, b);
    TdOfLinked(s, b.header);
    PathBodies(s, b.header);
    var was, will := Path(s.headers, s.genesis, s.current.header), Path(s.headers, s.genesis, b.header);
    assert forall n :: 0 <= n < |was| ==> was[n] == will[n];
    ExtendLookup(TablesOf(s), b, was);
  }

  lemma ReorgPublished(s: State, b: Block)
    requires Ready(s, b)
    ensures var r := Reorganised(s, b);
            LookupIs(Published(Holding(s, b).(txs := r.txs, receipts := r.receipts), b), Path(s.headers, s.genesis, b.header))
  {
    HeavierIsNew(s, b);
    PathsPart(s, b);
    var was, will := Path(s.headers, s.genesis, s.current.header), Path(s.headers, s.genesis, b.header);
    SwapLookup(s, b, was, will, Fork(was, will));
    var r := Reorganised(s, b);
    RepublishLookup(Holding(s, b).(txs := r.txs, receipts := r.receipts), b, will);
  }

  /** The lookup after a heavier block has been written and published. */
  lemma CanonLookup(s: State, b: Block)
    requires Ready(s, b)
    ensures LookupIs(Published(TablesOf(WriteBlock(s, b).0), b), Path(s.headers, s.genesis, b.header))
  {
    CanonIndex(s, b);
    if b.header.parent == s.current.header.hash {
      ExtendPublished(s, b);
      assert TablesOf(WriteBlock(s, b).0) == Holding(s, b);
    } else {
      ReorgPublished(s, b);
      var r := Reorganised(s, b);
      assert TablesOf(WriteBlock(s, b).0) == Holding(s, b).(txs := r.txs, receipts := r.receipts);
    }
  }

  lemma SameReceipts(bodies: map<Hash, seq<Hash>>, old': map<Hash, seq<Receipt>>, h: Hash, rs: seq<Receipt>)
    requires Receipted(bodies, old') && (h in old' ==> old'[h] == rs) && (h in bodies ==> MatchReceipts(bodies[h], rs))
    ensures forall x :: x in bodies ==> ReceiptsOf(old'[h := rs], x) == ReceiptsOf(old', x)
    ensures Receipted(bodies, old'[h := rs])
  {
    assert h in bodies ==> MatchReceipts(bodies[h], ReceiptsOf(old', h));
  }

  lemma OtherReceipts(s: State, receipts: map<Hash, seq<Receipt>>)
    requires StoreInv(s) && HeadInv(s)
    ensures StoreInv(s.(blockReceipts := receipts)) && HeadInv(s.(blockReceipts := receipts))
  {
  }

  lemma ReceiptsLookup(s: State, b: Block, rs: seq<Receipt>, s0: State)
    requires Inv(s) && Admissible(s, b, rs) && s0 == s.(blockReceipts := s.blockReceipts[b.header.hash := rs])
    requires StoreInv(s0) && HeadStored(s0)
    ensures LookupInv(s0)
  {
    SameReceipts(s.bodies, s.blockReceipts, b.header.hash, rs);
    PathHashes(s, s.current.header);
    SameLookup(TablesOf(s), TablesOf(s0), Path(s.headers, s.genesis, s.current.header));
  }

  lemma ReceiptsStored(s: State, b: Block, rs: seq<Receipt>)
    requires Inv(s) && Admissible(s, b, rs)
    ensures Inv(s.(blockReceipts := s.blockReceipts[b.header.hash := rs]))
  {
    OtherReceipts(s, s.blockReceipts[b.header.hash := rs]);
    ReceiptsLookup(s, b, rs, s.(blockReceipts := s.blockReceipts[b.header.hash := rs]));
  }

  /** The lookup of a path depends only on the blocks of that path. */
  lemma SameLookup(d: Tables, d': Tables, p: seq<Header>)
    requires LookupIs(d, p) && d'.txs == d.txs && d'.receipts == d.receipts
    requires forall n :: 0 <= n < |p| ==>
               && p[n].hash in d.bodies && p[n].hash in d'.bodies && d'.bodies[p[n].hash] == d.bodies[p[n].hash]
               && ReceiptsOf(d'.blockReceipts, p[n].hash) == ReceiptsOf(d.blockReceipts, p[n].hash)
    ensures LookupIs(d', p)
  {
    forall n, i | 0 <= n < |p| && p[n].hash in d'.bodies && 0 <= i < |d'.bodies[p[n].hash]|
      ensures Found(d', p, n, i)
    {
      assert Found(d, p, n, i);
    }
    forall t | t in d'.txs
      ensures var m := d'.txs[t]; m.number < |p| && p[m.number].hash == m.block && At(d'.bodies, p, m.number, m.index, t)
    {
      assert At(d.bodies, p, d.txs[t].number, d.txs[t].index, t);
    }
  }

  lemma ReceiptedMore(bodies: map<Hash, seq<Hash>>, receipts: map<Hash, seq<Receipt>>, h: Hash, txs: seq<Hash>)
    requires Receipted(bodies, receipts) && MatchReceipts(txs, ReceiptsOf(receipts, h))
    ensures Receipted(bodies[h := txs], receipts)
  {
  }

  /** All bodies of a stored block's path are stored. */
  lemma PathHashes(s: State, h: Header)
    requires StoreInv(s) && Stored(s.headers, h.hash) && s.headers[h.hash] == h && Connected(s.headers, s.genesis, h)
    ensures forall n :: 0 <= n < |Path(s.headers, s.genesis, h)| ==> Path(s.headers, s.genesis, h)[n].hash in s.bodies
  {
    var p := Path(s.headers, s.genesis, h);
    forall n | 0 <= n < |p|
      ensures p[n].hash in s.bodies
    {
      PathAt(s.headers, s.genesis, h, n);
    }
  }

  lemma SideTables(s: State, b: Block, s1: State, p: seq<Header>)
    requires LookupIs(TablesOf(s), p) && forall n :: 0 <= n < |p| ==> p[n].hash in s.bodies
    requires s1.bodies == s.bodies[b.header.hash := b.txs]
    requires b.header.hash in s.bodies ==> s.bodies[b.header.hash] == b.txs
    requires s1.txs == s.txs && s1.receipts == s.receipts && s1.blockReceipts == s.blockReceipts
    ensures LookupIs(TablesOf(s1), p)
  {
    SameLookup(TablesOf(s), TablesOf(s1), p);
  }

  lemma SideLookup(s: State, b: Block, s1: State)
    requires StoreInv(s) && HeadStored(s) && LookupInv(s) && StoresBlock(s, b, s1) && StoreInv(s1) && HeadStored(s1)
    requires b.header.hash in s.bodies ==> s.bodies[b.header.hash] == b.txs
    requires MatchReceipts(b.txs, ReceiptsOf(s.blockReceipts, b.header.hash)) && Linked(s, b.header)
    requires s1.current == s.current && s1.txs == s.txs && s1.receipts == s.receipts && s1.blockReceipts == s.blockReceipts
    ensures LookupInv(s1)
  {
    ReceiptedMore(s.bodies, s.blockReceipts, b.header.hash, b.txs);
    PathKept(s, b, s1, s.current.header);
    PathHashes(s, s.current.header);
    SideTables(s, b, s1, Path(s.headers, s.genesis, s.current.header));
  }

  lemma PublishKeeps(s: State, b: Block, rs: seq<Receipt>)
    requires StoreInv(s) && HeadInv(s)
    ensures StoreInv(Publish(s, b, rs)) && HeadInv(Publish(s, b, rs))
  {
  }

  lemma CanonLookupInv(s: State, b: Block, s1: State)
    requires StoreInv(s) && Linked(s, b.header) && StoresBlock(s, b, s1) && Connected(s.headers, s.genesis, b.header)
    requires StoreInv(s1) && HeadInv(s1) && s1.current == b && s1.blockReceipts == s.blockReceipts
    requires Receipted(s.bodies, s.blockReceipts)
    requires MatchReceipts(b.txs, ReceiptsOf(s.blockReceipts, b.header.hash))
    requires LookupIs(Published(TablesOf(s1), b), Path(s.headers, s.genesis, b.header))
    ensures Inv(Publish(s1, b, ReceiptsOf(s.blockReceipts, b.header.hash)))
  {
    ReceiptedMore(s.bodies, s.blockReceipts, b.header.hash, b.txs);
    PathKept(s, b, s1, b.header);
    PublishKeeps(s1, b, ReceiptsOf(s.blockReceipts, b.header.hash));
  }

  lemma InsertCanon(s: State, b: Block)
    requires Ready(s, b)
    ensures WriteBlock(s, b).1 == CanonStat && WriteBlock(s, b).0.current == b
    ensures Inv(Publish(WriteBlock(s, b).0, b, ReceiptsOf(s.blockReceipts, b.header.hash)))
  {
    HeavierIsNew(s, b);
    CanonIndex(s, b);
    WriteBlockKeepsHead(s, b);
    CanonLookup(s, b);
    CanonLookupInv(s, b, WriteBlock(s, b).0);
  }

  lemma InsertSide(s: State, b: Block)
    requires Inv(s) && Linked(s, b.header) && b.header.parent in s.headers && !Heavier(s, b)
    requires b.header.hash in s.bodies ==> s.bodies[b.header.hash] == b.txs
    requires MatchReceipts(b.txs, ReceiptsOf(s.blockReceipts, b.header.hash))
    ensures WriteBlock(s, b).1 == SideStat && WriteBlock(s, b).0.current == s.current && Inv(WriteBlock(s, b).0)
  {
    WriteBlockKeepsHead(s, b);
    SideLookup(s, b, WriteBlock(s, b).0);
  }

  lemma ReadyToInsert(s: State, b: Block, rs: seq<Receipt>)
    requires Inv(s) && Admissible(s, b, rs) && b.header.parent in s.headers && Heavier(s, b)
    ensures Ready(s.(blockReceipts := s.blockReceipts[b.header.hash := rs]), b)
  {
    ReceiptsStored(s, b, rs);
    TdOfLinked(s, b.header);
  }

  /** `InsertChain`, one block: index, fork choice and lookup all stay in step
      with the head. */
  lemma InsertBlockKeeps(s: State, b: Block, rs: seq<Receipt>)
    requires Inv(s) && Admissible(s, b, rs)
    ensures Inv(InsertBlock(s, b, rs))
    ensures InsertBlock(s, b, rs).current ==
            if b.header.parent in s.headers && Heavier(s, b) then b else s.current
  {
    var s0 := s.(blockReceipts := s.blockReceipts[b.header.hash := rs]);
    ReceiptsStored(s, b, rs);
    assert ReceiptsOf(s0.blockReceipts, b.header.hash) == rs;
    if b.header.parent in s.headers {
      if Heavier(s, b) {
        ReadyToInsert(s, b, rs);
        InsertCanon(s0, b);
      } else {
        InsertSide(s0, b);
      }
    }
  }

  // ---------- the other heads ----------

  lemma {:induction false} TotalGrows(p: seq<Header>, n: nat)
    requires n < |p|
    ensures TotalDifficulty(p[..n]) + p[|p| - 1].difficulty <= TotalDifficulty(p)
    decreases |p|
  {
    if n < |p| - 1 {
      TotalGrows(p[..|p| - 1], n);
      assert p[..|p| - 1][..n] == p[..n];
    }
  }

  /** A stored block is strictly heavier than its proper ancestors. */
  lemma AncestorIsLighter(s: State, h: Header, n: nat)
    requires StoreInv(s) && Stored(s.headers, h.hash) && s.headers[h.hash] == h && n < h.number
    ensures Path(s.headers, s.genesis, h)[n].hash in s.td
    ensures s.td[Path(s.headers, s.genesis, h)[n].hash] < s.td[h.hash]
  {
    var p := Path(s.headers, s.genesis, h);
    PathAt(s.headers, s.genesis, h, n);
    StoredAt(s, p[n].hash);
    StoredAt(s, h.hash);
    TotalGrows(p, n + 1);
  }

  /** Two branches part strictly below the head and below the new block. */
  lemma ForkBelowHead(s: State, b: Block)
    requires StoreInv(s) && HeadInv(s) && Linked(s, b.header) && b.header.parent in s.headers && Heavier(s, b)
    requires b.header.parent != s.current.header.hash
    ensures Connected(s.headers, s.genesis, b.header)
    ensures var was, will := Path(s.headers, s.genesis, s.current.header), Path(s.headers, s.genesis, b.header);
            Fork(was, will) < |was| && Fork(was, will) < |will| && was[Fork(was, will)].hash != will[Fork(was, will)].hash
  {
    HeavierIsNew(s, b);
    TdOfLinked(s, b.header);
    StoredAt(s, b.header.parent);
    var parent := s.headers[b.header.parent];
    var was, will := Path(s.headers, s.genesis, s.current.header), Path(s.headers, s.genesis, b.header);
    var p, k := Path(s.headers, s.genesis, parent), Fork(was, will);
    forall n | 0 <= n < |p| ensures p[n] != s.current.header {
      if n < parent.number {
        AncestorIsLighter(s, parent, n);
      }
    }
    assert k > 0 && was[k - 1] == was[..k][k - 1] == will[..k][k - 1] == will[k - 1];
    PathAt(s.headers, s.genesis, s.current.header, k - 1);
    assert k < |was| && k < |will|;
    PathAt(s.headers, s.genesis, s.current.header, k);
    PathAt(s.headers, s.genesis, b.header, k);
  }

  lemma ReorgHeader(s: State, b: Block, k: nat)
    requires StoreInv(s) && HeadInv(s) && Connected(s.headers, s.genesis, b.header)
    requires b.header.parent != s.current.header.hash
    requires var was, will := Path(s.headers, s.genesis, s.current.header), Path(s.headers, s.genesis, b.header);
             k == Fork(was, will) && k < |was| && k < |will| && was[k].hash != will[k].hash
    ensures Headed(s, b).header == Headed(s, b).fast == Path(s.headers, s.genesis, b.header)[k]
  {
    var was, will := Path(s.headers, s.genesis, s.current.header), Path(s.headers, s.genesis, b.header);
    PathBodies(s, s.current.header);
    PathBodies(s, b.header);
    forall n | 0 <= n < |will| ensures will[n].number == n {
      PathAt(s.headers, s.genesis, b.header, n);
    }
    LastAdopted(s, b, was, will, k);
  }

  /** After a reorganisation the head header and the fast head stay at the first
      block above the common ancestor: they reach the new head exactly when the
      new branch is a single block. */
  lemma HeadersLag(s: State, b: Block)
    requires StoreInv(s) && HeadInv(s) && Linked(s, b.header) && b.header.parent in s.headers && Heavier(s, b)
    requires b.header.parent != s.current.header.hash
    ensures Connected(s.headers, s.genesis, b.header)
    ensures var was, will := Path(s.headers, s.genesis, s.current.header), Path(s.headers, s.genesis, b.header);
            var k, s' := Fork(was, will), WriteBlock(s, b).0;
            && k <= b.header.number && s'.header == s'.fast == will[k]
            && (s'.header == s'.current.header <==> k == b.header.number)
  {
    ForkBelowHead(s, b);
    CanonIndex(s, b);
    var k := Fork(Path(s.headers, s.genesis, s.current.header), Path(s.headers, s.genesis, b.header));
    ReorgHeader(s, b, k);
    PathAt(s.headers, s.genesis, b.header, k);
  }

  /** Without a reorganisation: a block on top of the head takes all three heads with
      it, unless the index above the head already held it, and then the header heads
      stay; a lighter block moves none. */
  lemma HeadsFollow(s: State, b: Block)
    requires StoreInv(s) && HeadInv(s) && Linked(s, b.header) && b.header.parent in s.headers
    ensures var s' := WriteBlock(s, b).0;
            && (!Heavier(s, b) ==> s'.current == s.current && s'.header == s.header && s'.fast == s.fast && s'.canon == s.canon)
            && (b.header.parent == s.current.header.hash ==>
                  && s'.current == b
                  && (b.header.number !in s.canon || s.canon[b.header.number] != b.header.hash ==>
                        s'.header == s'.fast == b.header)
                  && (b.header.number in s.canon && s.canon[b.header.number] == b.header.hash ==>
                        s'.header == s.header && s'.fast == s.fast))
  {
  }

  /** Adopting a block that the index does not hold yet moves both header heads. */
  lemma AdoptMovesHeads(a: State, x: Block)
    requires !(x.header.number in a.canon && a.canon[x.header.number] == x.header.hash)
    ensures Adopt(a, x).header == Adopt(a, x).fast == x.header
  {
  }

  /** Inserting a block that the index already holds moves neither. */
  lemma InsertKeepsHeads(a: State, gone: set<Hash>, b: Block)
    requires b.header.number in a.canon && a.canon[b.header.number] == b.header.hash
    ensures var r := Insert(a.(txs := a.txs - gone, receipts := a.receipts - gone), b);
            r.header == a.header && r.fast == a.fast
  {
  }

  lemma FirstAbove(s: State, b: Block, was: seq<Header>, will: seq<Header>, k: nat)
    requires k < |was| && k < |will| && BodiesStored(s, will) && will[|will| - 1] == b.header
    requires forall n :: 0 <= n < |will| ==> will[n].number == n
    requires k in s.canon && s.canon[k] == was[k].hash && was[k].hash != will[k].hash
    ensures var a := AdoptAll(s, Branch(s, b, will, k)); a.header == a.fast == will[k]
  {
    var branch := Branch(s, b, will, k);
    var j := |branch|;
    assert branch[..j] == branch;
    AdoptLast(s, branch, j);
    BranchAt(s, b, will, k, j);
    AdoptIndex(s, b, will, k, j - 1, k);
    AdoptMovesHeads(AdoptAll(s, branch[..j - 1]), branch[j - 1]);
  }

  lemma TipIndexed(s: State, b: Block, will: seq<Header>, k: nat)
    requires k < |will| && BodiesStored(s, will) && will[|will| - 1] == b.header
    requires forall n :: 0 <= n < |will| ==> will[n].number == n
    ensures var a := AdoptAll(s, Branch(s, b, will, k));
            b.header.number in a.canon && a.canon[b.header.number] == b.header.hash
  {
    var branch := Branch(s, b, will, k);
    assert branch[..|branch|] == branch;
    AdoptIndex(s, b, will, k, |branch|, b.header.number);
  }

  lemma LastAdopted(s: State, b: Block, was: seq<Header>, will: seq<Header>, k: nat)
    requires k < |was| && k < |will| && BodiesStored(s, was) && BodiesStored(s, will) && will[|will| - 1] == b.header
    requires forall n :: 0 <= n < |will| ==> will[n].number == n
    requires k in s.canon && s.canon[k] == was[k].hash && was[k].hash != will[k].hash
    ensures var r := Insert(Swap(s, b, was, will, k), b); r.header == r.fast == will[k]
  {
    FirstAbove(s, b, was, will, k);
    TipIndexed(s, b, will, k);
    var branch := Branch(s, b, will, k);
    InsertKeepsHeads(AdoptAll(s, branch), TxsOf(Branch(s, s.current, was, k)) - TxsOf(branch), b);
  }

  /** The head moves exactly when the sum of difficulties back to genesis is
      strictly higher: of equal branches the one seen first stays. */
  lemma HeadMovesIff(s: State, b: Block)
    requires StoreInv(s) && HeadInv(s) && Linked(s, b.header) && b.header.parent in s.headers
    ensures Connected(s.headers, s.genesis, b.header)
    ensures WriteBlock(s, b).1 == CanonStat <==>
            TotalDifficulty(Path(s.headers, s.genesis, b.header)) > TotalDifficulty(Path(s.headers, s.genesis, s.current.header))
    ensures WriteBlock(s, b).1 == SideStat ==> WriteBlock(s, b).0.current == s.current && WriteBlock(s, b).0.canon == s.canon
  {
    TdOfLinked(s, b.header);
    StoredAt(s, s.current.header.hash);
    StoredAt(s, b.header.parent);
  }

  // ---------- whole runs ----------

  datatype Import = Import(block: Block, receipts: seq<Receipt>)

  /** Every block of the run is admissible where it is inserted. */
  ghost predicate AdmissibleRun(s: State, run: seq<Import>)
    requires Inv(s)
    decreases |run|
  {
    if run == [] then true
    else if !Admissible(s, run[0].block, run[0].receipts) then false
    else
      InsertBlockKeeps(s, run[0].block, run[0].receipts);
      AdmissibleRun(InsertBlock(s, run[0].block, run[0].receipts), run[1..])
  }

  ghost function After(s: State, run: seq<Import>): State
    requires Inv(s) && AdmissibleRun(s, run)
    decreases |run|
  {
    if run == [] then s else
      InsertBlockKeeps(s, run[0].block, run[0].receipts);
      After(InsertBlock(s, run[0].block, run[0].receipts), run[1..])
  }

  lemma {:induction false} RunKeeps(s: State, run: seq<Import>)
    requires Inv(s) && AdmissibleRun(s, run)
    ensures Inv(After(s, run))
    decreases |run|
  {
    if run != [] {
      InsertBlockKeeps(s, run[0].block, run[0].receipts);
      RunKeeps(InsertBlock(s, run[0].block, run[0].receipts), run[1..]);
    }
  }

  lemma GenesisInv(g: Header)
    requires g.number == 0
    ensures Inv(Initial(g))
  {
    var s := Initial(g);
    assert Path(s.headers, g, g)[..0] == [];
    assert TotalDifficulty([g]) == g.difficulty;
  }

  /** The main result: after any run from genesis, the index up to the head is
      the head's ancestor path, the head is heaviest, and each transaction is
      looked up exactly where the canonical chain has it. */
  lemma RunFromGenesis(g: Header, run: seq<Import>)
    requires g.number == 0 && (GenesisInv(g); AdmissibleRun(Initial(g), run))
    ensures (GenesisInv(g); Inv(After(Initial(g), run)))
  {
    GenesisInv(g);
    RunKeeps(Initial(g), run);
  }

  // ---------- runs of WriteBlock alone ----------

  /** Every block of the run fits where it is written: its number follows its
      parent's, and a known hash comes with the known block. */
  ghost predicate WritableRun(s: State, run: seq<Block>)
    requires StoreInv(s) && HeadInv(s)
    decreases |run|
  {
    if run == [] then true
    else if !Writable(s, run[0]) then false
    else
      WriteBlockKeepsHead(s, run[0]);
      WritableRun(WriteBlock(s, run[0]).0, run[1..])
  }

  ghost predicate Writable(s: State, b: Block) {
    Linked(s, b.header) && (b.header.hash in s.bodies ==> s.bodies[b.header.hash] == b.txs)
  }

  ghost function AfterWrites(s: State, run: seq<Block>): State
    requires StoreInv(s) && HeadInv(s) && WritableRun(s, run)
    decreases |run|
  {
    if run == [] then s else
      WriteBlockKeepsHead(s, run[0]);
      AfterWrites(WriteBlock(s, run[0]).0, run[1..])
  }

  /** After any run of WriteBlock calls, whatever the transactions and receipts:
      the index up to the head is the head's ancestor path, total difficulties are
      sums back to genesis, and the head is heaviest. */
  lemma {:induction false} WritesKeepHead(s: State, run: seq<Block>)
    requires StoreInv(s) && HeadInv(s) && WritableRun(s, run)
    ensures StoreInv(AfterWrites(s, run)) && HeadInv(AfterWrites(s, run))
    decreases |run|
  {
    if run != [] {
      WriteBlockKeepsHead(s, run[0]);
      WritesKeepHead(WriteBlock(s, run[0]).0, run[1..]);
    }
  }

  lemma WritesFromGenesis(g: Header, run: seq<Block>)
    requires g.number == 0 && (GenesisInv(g); WritableRun(Initial(g), run))
    ensures (GenesisInv(g); var s := AfterWrites(Initial(g), run); StoreInv(s) && HeadInv(s))
  {
    GenesisInv(g);
    WritesKeepHead(Initial(g), run);
  }

  // ---------- a run in which the header heads lag ----------

  /** A block on genesis, and a branch of two blocks that outweighs it. */
  ghost predicate Example(g: Header, a: Header, b: Header, c: Header) {
    && g == Header(1, 0, 0, 1) && a == Header(2, 1, 1, 3)
    && b == Header(3, 1, 1, 1) && c == Header(4, 3, 2, 5)
  }

  function Bare(h: Header): Block {
    Block(h, [])
  }

  /** What is known of the state once `a` and `b` are written. */
  ghost predicate ExampleState(g: Header, a: Header, b: Header, s: State) {
    && s.genesis == g && s.headers == map[1 := g, 2 := a, 3 := b] && s.bodies == map[1 := [], 2 := [], 3 := []]
    && s.td == map[1 := 1, 2 := 4, 3 := 2] && s.current == Bare(a)
  }

  lemma ExampleWrites(g: Header, a: Header, b: Header, c: Header) returns (s: State)
    requires Example(g, a, b, c)
    ensures StoreInv(Initial(g)) && HeadInv(Initial(g)) && Writable(Initial(g), Bare(a))
    ensures var s1 := WriteBlock(Initial(g), Bare(a)).0;
            StoreInv(s1) && HeadInv(s1) && Writable(s1, Bare(b)) && s == WriteBlock(s1, Bare(b)).0
    ensures StoreInv(s) && HeadInv(s) && ExampleState(g, a, b, s)
  {
    GenesisInv(g);
    var s0 := Initial(g);
    WriteBlockKeepsHead(s0, Bare(a));
    var s1 := WriteBlock(s0, Bare(a)).0;
    assert Heavier(s0, Bare(a));
    WriteBlockKeepsHead(s1, Bare(b));
    s := WriteBlock(s1, Bare(b)).0;
    assert !Heavier(s1, Bare(b));
  }

  lemma ExampleForks(g: Header, a: Header, b: Header, c: Header, s: State)
    requires Example(g, a, b, c) && ExampleState(g, a, b, s)
    ensures Connected(s.headers, g, a) && Connected(s.headers, g, c)
    ensures Fork(Path(s.headers, g, a), Path(s.headers, g, c)) == 1 && Path(s.headers, g, c) == [g, b, c]
  {
    OneUp(s.headers, g, a, g);
    OneUp(s.headers, g, b, g);
    OneUp(s.headers, g, c, b);
    assert Path(s.headers, g, g) == [g];
    ForkUnique([g, a], [g, b, c], 1);
  }

  lemma ExampleLag(g: Header, a: Header, b: Header, c: Header, s2: State) returns (s: State)
    requires Example(g, a, b, c) && StoreInv(s2) && HeadInv(s2) && ExampleState(g, a, b, s2)
    ensures Writable(s2, Bare(c)) && s == WriteBlock(s2, Bare(c)).0 && StoreInv(s) && HeadInv(s)
    ensures s.current.header == c && s.header == b && s.fast == b
  {
    WriteBlockKeepsHead(s2, Bare(c));
    assert Heavier(s2, Bare(c));
    ExampleForks(g, a, b, c, s2);
    HeadersLag(s2, Bare(c));
    s := WriteBlock(s2, Bare(c)).0;
  }

  /** Three writes from genesis that leave `currentHeader` at `b`, one block below
      the head `c`. */
  lemma LagExample(g: Header, a: Header, b: Header, c: Header) returns (s: State)
    requires Example(g, a, b, c)
    ensures Ran(Initial(g), [Bare(a)] + ([Bare(b)] + ([Bare(c)] + [])), s)
    ensures s.current.header == c && s.header == b && s.fast == b
  {
    var s2 := ExampleWrites(g, a, b, c);
    s := ExampleLag(g, a, b, c, s2);
    RanNone(s);
    RanOne(s2, Bare(c), [], s);
    RanOne(WriteBlock(Initial(g), Bare(a)).0, Bare(b), [Bare(c)] + [], s);
    RanOne(Initial(g), Bare(a), [Bare(b)] + ([Bare(c)] + []), s);
  }

  ghost predicate Ran(s: State, run: seq<Block>, s': State) {
    StoreInv(s) && HeadInv(s) && WritableRun(s, run) && AfterWrites(s, run) == s'
  }

  lemma RanNone(s: State)
    requires StoreInv(s) && HeadInv(s)
    ensures Ran(s, [], s)
  {
  }

  lemma RanOne(s: State, b: Block, rest: seq<Block>, t: State)
    requires StoreInv(s) && HeadInv(s) && Writable(s, b) && Ran(WriteBlock(s, b).0, rest, t)
    ensures Ran(s, [b] + rest, t)
  {
    assert ([b] + rest)[0] == b && ([b] + rest)[1..] == rest;
  }
}
