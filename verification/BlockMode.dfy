/** Fork choice over full blocks: the block store, the total difficulties, the
    number-to-hash index, the transaction and receipt lookup, and the three
    head pointers, as values. `BlockChain.dfy` holds the code that updates them
    in place and refines the functions below. */
module BlockMode {
  import opened Wrappers
  import opened ChainStore

  datatype Block = Block(header: Header, txs: seq<Hash>)

  datatype Receipt = Receipt(txHash: Hash, cumulativeGasUsed: nat)

  /** The positional entry stored beside a transaction. */
  datatype TxMeta = TxMeta(block: Hash, number: nat, index: nat)

  datatype WriteStatus = NonStat | CanonStat | SideStat

  datatype State = State(
    genesis: Header,
    headers: Headers,
    bodies: map<Hash, seq<Hash>>,
    td: map<Hash, nat>,
    canon: map<nat, Hash>,
    current: Block,
    header: Header,
    fast: Header,
    blockReceipts: map<Hash, seq<Receipt>>,
    txs: map<Hash, TxMeta>,
    receipts: map<Hash, Receipt>)

  // ---------- what each operation does to the state ----------

  function GetBlock(s: State, h: Hash): Option<Block> {
    if h in s.headers && h in s.bodies then Some(Block(s.headers[h], s.bodies[h])) else None
  }

  function ReceiptsOf(m: map<Hash, seq<Receipt>>, h: Hash): seq<Receipt> {
    if h in m then m[h] else []
  }

  /** The index and the heads after `insert(b)`. */
  function Insert(s: State, b: Block): State {
    var n, h := b.header.number, b.header.hash;
    var updateHeads := !(n in s.canon && s.canon[n] == h);
    s.(canon := s.canon[n := h], current := b,
       header := if updateHeads then b.header else s.header,
       fast := if updateHeads then b.header else s.fast)
  }

  /** The lookup after the first `n` transactions of `b` have been written. */
  function WithTxs(m: map<Hash, TxMeta>, b: Block, n: nat): map<Hash, TxMeta>
    requires n <= |b.txs|
  {
    if n == 0 then m else
      WithTxs(m, b, n - 1)[b.txs[n - 1] := TxMeta(b.header.hash, b.header.number, n - 1)]
  }

  function WithReceipts(m: map<Hash, Receipt>, rs: seq<Receipt>): map<Hash, Receipt> {
    if rs == [] then m else
      var last := rs[|rs| - 1];
      WithReceipts(m, rs[..|rs| - 1])[last.txHash := last]
  }

  /** `b`'s transactions and receipts written to the lookup. */
  function Publish(s: State, b: Block, rs: seq<Receipt>): State {
    s.(txs := WithTxs(s.txs, b, |b.txs|), receipts := WithReceipts(s.receipts, rs))
  }

  function Adopt(s: State, b: Block): State {
    Publish(Insert(s, b), b, ReceiptsOf(s.blockReceipts, b.header.hash))
  }

  function AdoptAll(s: State, bs: seq<Block>): State {
    if bs == [] then s else Adopt(AdoptAll(s, bs[..|bs| - 1]), bs[|bs| - 1])
  }

  function TxsOf(bs: seq<Block>): set<Hash> {
    set i, t | 0 <= i < |bs| && t in bs[i].txs :: t
  }

  /** Everything below the tip of `p` is stored, header and body. */
  ghost predicate BodiesStored(s: State, p: seq<Header>) {
    forall n :: 0 <= n < |p| - 1 ==> GetBlock(s, p[n].hash).Some? && s.headers[p[n].hash] == p[n]
  }

  /** The blocks of path `p` from its tip down to position `k`, tip first; the
      tip is `b`, whose body need not be stored yet. */
  ghost function Branch(s: State, b: Block, p: seq<Header>, k: nat): (bs: seq<Block>)
    requires k <= |p|
    requires BodiesStored(s, p)
    ensures |bs| == |p| - k
  {
    seq(|p| - k, i requires 0 <= i < |p| - k =>
      if i == 0 then b else Block(p[|p| - 1 - i], s.bodies[p[|p| - 1 - i].hash]))
  }

  /** The new branch is adopted tip first, then the transactions found only on
      the old one go. */
  ghost function Swap(s: State, b: Block, was: seq<Header>, will: seq<Header>, k: nat): State
    requires k <= |was| && k <= |will| && BodiesStored(s, was) && BodiesStored(s, will)
  {
    var branch := Branch(s, b, will, k);
    var gone := TxsOf(Branch(s, s.current, was, k)) - TxsOf(branch);
    var a := AdoptAll(s, branch);
    a.(txs := a.txs - gone, receipts := a.receipts - gone)
  }

  /** The state after `reorg` from the current head to `b`: the branches above
      the common ancestor are swapped. */
  ghost function Reorganised(s: State, b: Block): State
    requires StoreInv(s) && HeadStored(s) && Connected(s.headers, s.genesis, b.header)
  {
    var was, will := Path(s.headers, s.genesis, s.current.header), Path(s.headers, s.genesis, b.header);
    PathBodies(s, s.current.header);
    PathBodies(s, b.header);
    Swap(s, b, was, will, Fork(was, will))
  }

  predicate Heavier(s: State, b: Block)
    requires b.header.parent in s.td && s.current.header.hash in s.td
  {
    s.td[b.header.parent] + b.header.difficulty > s.td[s.current.header.hash]
  }

  /** `WriteBlock`: the new state and the reported status. */
  ghost function WriteBlock(s: State, b: Block): (r: (State, WriteStatus))
    requires StoreInv(s) && HeadStored(s) && Linked(s, b.header)
  {
    if !Stored(s.headers, b.header.parent) then (s, NonStat) else
      var h := b.header.hash;
      var canonical := Heavier(s, b);
      var s1 := if !canonical then s
                else Insert(if b.header.parent != s.current.header.hash then Reorganised(s, b) else s, b);
      (s1.(td := s.td[h := s.td[b.header.parent] + b.header.difficulty],
           headers := s.headers[h := b.header], bodies := s.bodies[h := b.txs]),
       if canonical then CanonStat else SideStat)
  }

  /** One processed block in `InsertChain`: its receipts are stored, the block
      is written, and a canonical block is published to the lookup. */
  ghost function InsertBlock(s: State, b: Block, rs: seq<Receipt>): State
    requires StoreInv(s) && HeadStored(s) && Linked(s, b.header)
  {
    var s0 := s.(blockReceipts := s.blockReceipts[b.header.hash := rs]);
    var (s1, status) := WriteBlock(s0, b);
    if status == CanonStat then Publish(s1, b, rs) else s1
  }

  // ---------- what callers guarantee ----------

  /** The header rules that `ValidateHeader` enforces before a block is written,
      with hashes as identities: a known hash means a known header. */
  predicate Linked(s: State, h: Header) {
    && h.difficulty > 0
    && (Stored(s.headers, h.parent) ==> h.number == s.headers[h.parent].number + 1)
    && (h.hash in s.headers ==> s.headers[h.hash] == h)
  }

  ghost predicate MatchReceipts(txs: seq<Hash>, rs: seq<Receipt>) {
    |rs| == |txs| && forall i :: 0 <= i < |txs| ==> rs[i].txHash == txs[i]
  }

  /** No transaction stands at two positions of the path. */
  ghost predicate NoTxTwice(bodies: map<Hash, seq<Hash>>, p: seq<Header>) {
    forall n, i, m, j ::
      && 0 <= n < |p| && p[n].hash in bodies && 0 <= i < |bodies[p[n].hash]|
      && 0 <= m < |p| && p[m].hash in bodies && 0 <= j < |bodies[p[m].hash]|
      && bodies[p[n].hash][i] == bodies[p[m].hash][j]
      ==> n == m && i == j
  }

  /** A block that `InsertChain` may reach `WriteBlock` with. */
  ghost predicate Admissible(s: State, b: Block, rs: seq<Receipt>)
    requires StoreInv(s)
  {
    && Linked(s, b.header)
    && (b.header.hash in s.bodies ==> s.bodies[b.header.hash] == b.txs)
    && (b.header.hash in s.blockReceipts ==> s.blockReceipts[b.header.hash] == rs)
    && MatchReceipts(b.txs, rs)
    && (Stored(s.headers, b.header.parent) ==>
          NoTxTwice(s.bodies[b.header.hash := b.txs], Path(s.headers, s.genesis, b.header)))
  }

  // ---------- the invariants ----------

  /** Every stored block leads back to genesis and its stored total difficulty
      is the sum of the difficulties on the way. */
  ghost predicate StoreInv(s: State) {
    && s.genesis.number == 0 && Keyed(s.headers)
    && s.genesis.hash in s.headers && s.headers[s.genesis.hash] == s.genesis
    && s.headers.Keys == s.bodies.Keys == s.td.Keys
    && (forall h {:trigger Stored(s.headers, h)} :: Stored(s.headers, h) ==>
          && Connected(s.headers, s.genesis, s.headers[h])
          && (s.headers[h] == s.genesis || s.headers[h].difficulty > 0)
          && s.td[h] == TotalDifficulty(Path(s.headers, s.genesis, s.headers[h])))
  }

  predicate Stored(hs: Headers, h: Hash) {
    h in hs
  }

  ghost predicate HeadStored(s: State) {
    Stored(s.headers, s.current.header.hash) && GetBlock(s, s.current.header.hash) == Some(s.current)
  }

  /** Up to the head the index is the head's ancestor path, and no stored block
      has a greater total difficulty than the head. */
  ghost predicate HeadInv(s: State)
    requires StoreInv(s)
  {
    && HeadStored(s)
    && (forall n :: 0 <= n <= s.current.header.number ==>
          n in s.canon && s.canon[n] == Path(s.headers, s.genesis, s.current.header)[n].hash)
    && (forall h :: h in s.td ==> s.td[h] <= s.td[s.current.header.hash])
  }

  /** The part of the state that the lookup is about. */
  datatype Tables = Tables(
    bodies: map<Hash, seq<Hash>>,
    blockReceipts: map<Hash, seq<Receipt>>,
    txs: map<Hash, TxMeta>,
    receipts: map<Hash, Receipt>)

  function TablesOf(s: State): Tables {
    Tables(s.bodies, s.blockReceipts, s.txs, s.receipts)
  }

  /** The lookup holds exactly the transactions on path `p`, each with its
      position there, and exactly their receipts. */
  ghost predicate LookupIs(d: Tables, p: seq<Header>) {
    && (forall n, i :: 0 <= n < |p| && p[n].hash in d.bodies && 0 <= i < |d.bodies[p[n].hash]| ==>
          Found(d, p, n, i))
    && (forall t :: t in d.txs ==>
          d.txs[t].number < |p| && p[d.txs[t].number].hash == d.txs[t].block && At(d.bodies, p, d.txs[t].number, d.txs[t].index, t))
    && d.receipts.Keys == d.txs.Keys
  }

  /** Transaction `t` is number `i` in the body of the path's block `n`. */
  ghost predicate At(bodies: map<Hash, seq<Hash>>, p: seq<Header>, n: int, i: int, t: Hash) {
    0 <= n < |p| && p[n].hash in bodies && 0 <= i < |bodies[p[n].hash]| && bodies[p[n].hash][i] == t
  }

  /** The transaction and the receipt at position `i` of the path's block `n`
      are looked up as such. */
  ghost predicate Found(d: Tables, p: seq<Header>, n: nat, i: nat)
    requires n < |p| && p[n].hash in d.bodies && i < |d.bodies[p[n].hash]|
  {
    var t, rs := d.bodies[p[n].hash][i], ReceiptsOf(d.blockReceipts, p[n].hash);
    && t in d.txs && d.txs[t] == TxMeta(p[n].hash, n, i)
    && i < |rs| && t in d.receipts && d.receipts[t] == rs[i]
  }

  ghost predicate LookupInv(s: State)
    requires StoreInv(s) && HeadStored(s)
  {
    && Receipted(s.bodies, s.blockReceipts)
    && LookupIs(TablesOf(s), Path(s.headers, s.genesis, s.current.header))
  }

  /** Every stored body has its receipts stored beside it. */
  ghost predicate Receipted(bodies: map<Hash, seq<Hash>>, receipts: map<Hash, seq<Receipt>>) {
    forall h :: h in bodies ==> MatchReceipts(bodies[h], ReceiptsOf(receipts, h))
  }

  ghost predicate Inv(s: State) {
    StoreInv(s) && HeadInv(s) && LookupInv(s)
  }

  /** A database holding only a genesis block, which carries no transactions. */
  function Initial(g: Header): State {
    State(g, map[g.hash := g], map[g.hash := []], map[g.hash := g.difficulty], map[0 := g.hash],
          Block(g, []), g, g, map[], map[], map[])
  }

  // ---------- paths in a stored state ----------

  lemma PathBodies(s: State, h: Header)
    requires StoreInv(s) && Connected(s.headers, s.genesis, h)
    ensures BodiesStored(s, Path(s.headers, s.genesis, h))
  {
    var p := Path(s.headers, s.genesis, h);
    forall n | 0 <= n < |p| - 1 ensures GetBlock(s, p[n].hash).Some? && s.headers[p[n].hash] == p[n] {
      PathAt(s.headers, s.genesis, h, n);
    }
  }

  lemma LinkedConnected(s: State, h: Header)
    requires StoreInv(s) && Linked(s, h) && Stored(s.headers, h.parent)
    ensures Connected(s.headers, s.genesis, h)
    ensures Path(s.headers, s.genesis, h) == Path(s.headers, s.genesis, s.headers[h.parent]) + [h]
  {
  }
}
