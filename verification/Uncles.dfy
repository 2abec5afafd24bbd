/** Uncle verification of core/block_validator.go, and what it guarantees along a
    whole chain. */
module Uncles {
  import opened Wrappers
  import opened Headers

  datatype Block = Block(header: Header, uncles: seq<Header>)

  type Store = map<Hash, Block>

  const WINDOW := 7
  const TWO_256 := 0x1_0000_0000_0000_0000_0000_0000_0000_0000_0000_0000_0000_0000_0000_0000_0000_0000

  datatype UncleError = TooMany | NotUnique | IsAncestor | ParentNotAncestor | Invalid(error: HeaderError)

  /** `GetBlocksFromHash`: a block and up to n - 1 ancestors. */
  function BlocksFrom(store: Store, hash: Hash, n: nat): seq<Block>
    decreases n
  {
    if n == 0 || hash !in store then []
    else [store[hash]] + BlocksFrom(store, store[hash].header.parent, n - 1)
  }

  predicate HasHash(bs: seq<Block>, hash: Hash) {
    exists k :: 0 <= k < |bs| && bs[k].header.hash == hash
  }

  predicate HasUncle(bs: seq<Block>, hash: Hash) {
    exists k :: 0 <= k < |bs| && ListsUncle(bs[k], hash)
  }

  predicate ListsUncle(b: Block, hash: Hash) {
    exists j :: 0 <= j < |b.uncles| && b.uncles[j].hash == hash
  }

  /** The header whose child the uncle claims to be. */
  predicate IsParent(bs: seq<Block>, block: Block, uncle: Header, h: Header) {
    || (uncle.parent == block.header.hash && h == block.header)
    || (uncle.parent != block.header.hash && exists k :: 0 <= k < |bs| && bs[k].header.hash == uncle.parent && h == bs[k].header)
  }

  /** One uncle, given the ancestors: it is new, it is no ancestor, its parent is
      an ancestor other than the block's own parent, and its header is valid. */
  ghost predicate UncleOk(bs: seq<Block>, block: Block, i: nat, pow: Header -> bool, now: nat)
    requires i < |block.uncles|
  {
    var u := block.uncles[i];
    && !HasUncle(bs, u.hash)
    && u.hash != block.header.hash
    && (forall j :: 0 <= j < i ==> block.uncles[j].hash != u.hash)
    && !HasHash(bs, u.hash)
    && u.parent != block.header.parent
    && exists h :: IsParent(bs, block, u, h) && ValidateHeader(u, h, true, pow(u), true, now).None?
  }

  ghost predicate UnclesOk(store: Store, block: Block, pow: Header -> bool, now: nat) {
    && |block.uncles| <= 2
    && forall i :: 0 <= i < |block.uncles| ==> UncleOk(BlocksFrom(store, block.header.parent, WINDOW), block, i, pow, now)
  }

  ghost predicate Keyed(store: Store) {
    forall h: Hash :: h in store ==> store[h].header.hash == h
  }

  /** What an error says of the uncle it is about. */
  ghost predicate Blames(bs: seq<Block>, block: Block, i: nat, pow: Header -> bool, now: nat, e: UncleError)
    requires i < |block.uncles|
  {
    var u := block.uncles[i];
    match e
    case TooMany => false
    case NotUnique => u.hash == block.header.hash || HasUncle(bs, u.hash) || exists j :: 0 <= j < i && block.uncles[j].hash == u.hash
    case IsAncestor => HasHash(bs, u.hash)
    case ParentNotAncestor => u.parent == block.header.parent || forall h: Header :: !IsParent(bs, block, u, h)
    case Invalid(error) => exists h :: IsParent(bs, block, u, h) && ValidateHeader(u, h, true, pow(u), true, now) == Some(error)
  }

  // ---------- the loops ----------

  method GetBlocksFromHash(store: Store, hash: Hash, n: nat) returns (blocks: seq<Block>)
    ensures blocks == BlocksFrom(store, hash, n)
  {
    blocks := [];
    var at := hash;
    var i := 0;
    while i < n && at in store
      invariant i <= n
      invariant BlocksFrom(store, hash, n) == blocks + BlocksFrom(store, at, n - i)
    {
      blocks := blocks + [store[at]];
      at := store[at].header.parent;
      i := i + 1;
    }
  }

  /** The ancestors by hash, and every hash an uncle may not have. */
  method Collect(bs: seq<Block>, block: Block) returns (ancestors: map<Hash, Header>, uncles: set<Hash>)
    ensures forall h: Hash :: h in ancestors <==> h == block.header.hash || HasHash(bs, h)
    ensures forall h: Hash :: h in ancestors ==>
              if h == block.header.hash then ancestors[h] == block.header
              else exists k :: 0 <= k < |bs| && bs[k].header.hash == h && ancestors[h] == bs[k].header
    ensures forall h: Hash :: h in uncles <==> h == block.header.hash || HasUncle(bs, h)
  {
    ancestors, uncles := map[], {};
    for i := 0 to |bs|
      invariant forall h: Hash :: h in ancestors <==> HasHash(bs[..i], h)
      invariant forall h: Hash :: h in ancestors ==> exists k :: 0 <= k < i && bs[k].header.hash == h && ancestors[h] == bs[k].header
      invariant forall h: Hash :: h in uncles <==> HasUncle(bs[..i], h)
    {
      ancestors := ancestors[bs[i].header.hash := bs[i].header];
      var own := UncleHashes(bs[i].uncles);
      forall h: Hash
        ensures HasHash(bs[..i + 1], h) <==> HasHash(bs[..i], h) || h == bs[i].header.hash
        ensures HasUncle(bs[..i + 1], h) <==> HasUncle(bs[..i], h) || ListsUncle(bs[i], h)
      {
        Extend(bs, i, h);
      }
      uncles := uncles + own;
    }
    assert bs[..|bs|] == bs;
    ancestors := ancestors[block.header.hash := block.header];
    uncles := uncles + {block.header.hash};
  }

  lemma Extend(bs: seq<Block>, i: nat, h: Hash)
    requires i < |bs|
    ensures HasHash(bs[..i + 1], h) <==> HasHash(bs[..i], h) || h == bs[i].header.hash
    ensures HasUncle(bs[..i + 1], h) <==> HasUncle(bs[..i], h) || ListsUncle(bs[i], h)
  {
    var longer := bs[..i + 1];
    assert longer == bs[..i] + [bs[i]];
    assert longer[i] == bs[i];
    assert forall k :: 0 <= k < i ==> longer[k] == bs[..i][k];
  }

  method UncleHashes(us: seq<Header>) returns (s: set<Hash>)
    ensures forall h: Hash :: h in s <==> exists j :: 0 <= j < |us| && us[j].hash == h
  {
    s := {};
    for i := 0 to |us|
      invariant forall h: Hash :: h in s <==> exists j :: 0 <= j < i && us[j].hash == h
    {
      s := s + {us[i].hash};
    }
  }

  /** The checks on one uncle, against the collected sets. */
  method CheckUncle(store: Store, bs: seq<Block>, block: Block, i: nat, ancestors: map<Hash, Header>, uncles: set<Hash>,
                    pow: Header -> bool, now: nat)
    returns (error: Option<UncleError>)
    requires Keyed(store) && bs == BlocksFrom(store, block.header.parent, WINDOW) && i < |block.uncles|
    requires forall h: Hash :: h in ancestors <==> h == block.header.hash || HasHash(bs, h)
    requires forall h: Hash :: h in ancestors ==>
               if h == block.header.hash then ancestors[h] == block.header
               else exists k :: 0 <= k < |bs| && bs[k].header.hash == h && ancestors[h] == bs[k].header
    requires forall h: Hash :: h in uncles <==>
               h == block.header.hash || HasUncle(bs, h) || exists j :: 0 <= j < i && block.uncles[j].hash == h
    ensures error.None? <==> UncleOk(bs, block, i, pow, now)
    ensures error.Some? ==> Blames(bs, block, i, pow, now, error.value)
  {
    var u := block.uncles[i];
    if u.hash in uncles {
      return Some(NotUnique);
    }
    if u.hash in ancestors {
      return Some(IsAncestor);
    }
    if u.parent !in ancestors || u.parent == block.header.parent {
      NoParent(bs, block, u);
      return Some(ParentNotAncestor);
    }
    ParentUnique(store, block, u, ancestors[u.parent]);
    var e := ValidateHeader(u, ancestors[u.parent], true, pow(u), true, now);
    return if e.Some? then Some(Invalid(e.value)) else None;
  }

  /** `VerifyUncles` accepts exactly the blocks whose uncles are all right, and its
      error is about the first that is not. */
  method VerifyUncles(store: Store, block: Block, pow: Header -> bool, now: nat) returns (error: Option<UncleError>)
    requires Keyed(store)
    ensures error.None? <==> UnclesOk(store, block, pow, now)
    ensures error == Some(TooMany) <==> |block.uncles| > 2
    ensures error.Some? && |block.uncles| <= 2 ==>
            var bs := BlocksFrom(store, block.header.parent, WINDOW);
            exists i :: 0 <= i < |block.uncles| && Blames(bs, block, i, pow, now, error.value) &&
              forall j :: 0 <= j < i ==> UncleOk(bs, block, j, pow, now)
  {
    if |block.uncles| > 2 {
      return Some(TooMany);
    }
    var bs := GetBlocksFromHash(store, block.header.parent, WINDOW);
    var ancestors, uncles := Collect(bs, block);
    for i := 0 to |block.uncles|
      invariant forall h: Hash :: h in uncles <==>
                  h == block.header.hash || HasUncle(bs, h) || exists j :: 0 <= j < i && block.uncles[j].hash == h
      invariant forall j :: 0 <= j < i ==> UncleOk(bs, block, j, pow, now)
    {
      error := CheckUncle(store, bs, block, i, ancestors, uncles, pow, now);
      if error.Some? {
        return;
      }
      uncles := uncles + {block.uncles[i].hash};
    }
    return None;
  }

  lemma NoParent(bs: seq<Block>, block: Block, u: Header)
    ensures u.parent != block.header.hash && !HasHash(bs, u.parent) ==> forall h: Header :: !IsParent(bs, block, u, h)
  {
  }

  lemma {:induction false} FromKeyed(store: Store, hash: Hash, n: nat, k: nat)
    requires Keyed(store) && k < |BlocksFrom(store, hash, n)|
    ensures var b := BlocksFrom(store, hash, n)[k]; b.header.hash in store && store[b.header.hash] == b
    decreases n
  {
    if k > 0 {
      FromKeyed(store, store[hash].header.parent, n - 1, k - 1);
    }
  }

  lemma ParentUnique(store: Store, block: Block, u: Header, h: Header)
    requires Keyed(store) && IsParent(BlocksFrom(store, block.header.parent, WINDOW), block, u, h)
    ensures forall h': Header :: IsParent(BlocksFrom(store, block.header.parent, WINDOW), block, u, h') ==> h' == h
  {
    var bs := BlocksFrom(store, block.header.parent, WINDOW);
    forall k | 0 <= k < |bs|
      ensures bs[k].header.hash in store && store[bs[k].header.hash] == bs[k]
    {
      FromKeyed(store, block.header.parent, WINDOW, k);
    }
  }

  // ---------- along a chain ----------

  /** A chain from its genesis, each block verified against the store of its time,
      which held the blocks before it. */
  ghost predicate Accepted(c: seq<Block>, stores: seq<Store>, pow: Header -> bool, now: seq<nat>) {
    && |stores| == |now| == |c|
    && Linked(c)
    && (forall i :: 0 <= i < |c| ==> Held(c, stores[i], i))
    && forall i :: 1 <= i < |c| ==> UnclesOk(stores[i], c[i], pow, now[i])
  }

  predicate Linked(c: seq<Block>) {
    forall i :: 1 <= i < |c| ==> Links(c, i)
  }

  predicate Links(c: seq<Block>, i: nat)
    requires 1 <= i < |c|
  {
    c[i].header.parent == c[i - 1].header.hash && c[i].header.number == c[i - 1].header.number + 1
  }

  /** The store knows the blocks below, and nothing below the genesis. */
  ghost predicate Held(c: seq<Block>, store: Store, i: nat)
    requires i < |c|
  {
    && Keyed(store)
    && c[0].header.parent !in store
    && forall j :: 0 <= j < i ==> HeldAt(c[j], store)
  }

  predicate HeldAt(b: Block, store: Store) {
    b.header.hash in store && store[b.header.hash] == b
  }

  /** Hashes identify headers: an uncle of the chain shares its hash with no other
      uncle and no block of it, and is not the child of the block that lists it. */
  ghost predicate Hashed(c: seq<Block>) {
    && (forall i, j, a, b :: 0 <= i < |c| && 0 <= j < |c| && 0 <= a < |c[i].uncles| && 0 <= b < |c[j].uncles| ==>
          SameHash(c[i].uncles[a], c[j].uncles[b]))
    && (forall i, j, a :: 0 <= i < |c| && 0 <= j < |c| && 0 <= a < |c[i].uncles| ==>
          SameHash(c[i].uncles[a], c[j].header))
    && (forall i, a :: 0 <= i < |c| && 0 <= a < |c[i].uncles| ==> c[i].uncles[a].parent != c[i].header.hash)
  }

  predicate SameHash(g: Header, h: Header) {
    g.hash == h.hash ==> g == h
  }

  function Cut(n: nat, limit: nat): nat {
    if n <= limit then n else limit
  }

  /** The window of block i is the chain below it, nearest first. */
  lemma {:induction false} WindowAt(c: seq<Block>, store: Store, i: nat, at: nat, n: nat)
    requires i < |c| && Linked(c) && Held(c, store, i) && at < i
    ensures |BlocksFrom(store, c[at].header.hash, n)| == Cut(n, at + 1)
    ensures forall k :: 0 <= k < Cut(n, at + 1) ==> BlocksFrom(store, c[at].header.hash, n)[k] == c[at - k]
    decreases n
  {
    assert HeldAt(c[at], store);
    if n > 0 {
      var rest := BlocksFrom(store, c[at].header.parent, n - 1);
      assert BlocksFrom(store, c[at].header.hash, n) == [c[at]] + rest;
      if at == 0 {
        assert rest == [];
      } else {
        assert Links(c, at);
        WindowAt(c, store, i, at - 1, n - 1);
      }
    }
  }

  lemma {:induction false} Numbers(c: seq<Block>, i: nat)
    requires Linked(c) && i < |c|
    ensures c[i].header.number == c[0].header.number + i
  {
    if i > 0 {
      assert Links(c, i);
      Numbers(c, i - 1);
    }
  }

  /** The verdict on one uncle, in terms of the chain below. */
  lemma UncleFacts(c: seq<Block>, stores: seq<Store>, pow: Header -> bool, now: seq<nat>, i: nat, a: nat)
      returns (bs: seq<Block>)
    requires Accepted(c, stores, pow, now) && 1 <= i < |c| && a < |c[i].uncles|
    ensures UncleOk(bs, c[i], a, pow, now[i])
    ensures |bs| == Cut(WINDOW, i) && forall k :: 0 <= k < |bs| ==> bs[k] == c[i - 1 - k]
  {
    bs := BlocksFrom(stores[i], c[i].header.parent, WINDOW);
    Below(c, stores[i], i, WINDOW, bs);
    assert UnclesOk(stores[i], c[i], pow, now[i]);
  }

  lemma Below(c: seq<Block>, store: Store, i: nat, n: nat, bs: seq<Block>)
    requires 1 <= i < |c| && Linked(c) && Held(c, store, i) && bs == BlocksFrom(store, c[i].header.parent, n)
    ensures |bs| == Cut(n, i) && forall k :: 0 <= k < |bs| ==> bs[k] == c[i - 1 - k]
  {
    assert Links(c, i);
    WindowAt(c, store, i, i - 1, n);
  }

  /** The uncle's parent is two to seven blocks back. */
  lemma UncleParent(c: seq<Block>, stores: seq<Store>, pow: Header -> bool, now: seq<nat>, i: nat, a: nat)
      returns (k: nat)
    requires Accepted(c, stores, pow, now) && Hashed(c) && 1 <= i < |c| && a < |c[i].uncles|
    ensures 1 <= k < 7 && k < i && c[i].uncles[a].number == c[i - 1 - k].header.number + 1
    ensures c[i].uncles[a].parent == c[i - 1 - k].header.hash
    ensures ValidateHeader(c[i].uncles[a], c[i - 1 - k].header, true, pow(c[i].uncles[a]), true, now[i]).None?
  {
    var bs := UncleFacts(c, stores, pow, now, i, a);
    var u := c[i].uncles[a];
    var h :| IsParent(bs, c[i], u, h) && ValidateHeader(u, h, true, pow(u), true, now[i]).None?;
    k :| 0 <= k < |bs| && bs[k].header.hash == u.parent && h == bs[k].header;
    assert Links(c, i);
  }

  /** Every uncle of an accepted chain carries its proof of work, is later than its
      parent on the chain and has the difficulty that parent calls for. */
  lemma UncleProved(c: seq<Block>, stores: seq<Store>, pow: Header -> bool, now: seq<nat>, i: nat, a: nat)
    requires Accepted(c, stores, pow, now) && Hashed(c) && 1 <= i < |c| && a < |c[i].uncles|
    ensures var u := c[i].uncles[a];
            && pow(u) && u.time < TWO_256
            && exists j :: 0 <= j < i && u.parent == c[j].header.hash && u.time > c[j].header.time &&
                 u.difficulty == CalcDifficulty(Uint64(u.time), Uint64(c[j].header.time), c[j].header.number, c[j].header.difficulty)
  {
    var k := UncleParent(c, stores, pow, now, i, a);
    assert c[i].uncles[a].parent == c[i - 1 - k].header.hash;
  }

  /** A header made on the chain `k` blocks below the parent of block i, with its
      proof of work, whose hash is new. */
  predicate Sibling(c: seq<Block>, i: nat, u: Header, k: nat, seconds: int, pow: Header -> bool)
    requires 1 <= i < |c|
  {
    && 1 <= k <= 6 && k < i
    && Headers.Sound(c[i - 1 - k].header) && Generated(c[i - 1 - k].header, u, seconds)
    && u.extra <= 32 && u.time < TWO_256 && pow(u)
    && (forall j :: 0 <= j <= i ==> c[j].header.hash != u.hash)
    && (forall j :: 0 <= j < i ==> !ListsUncle(c[j], u.hash))
  }

  /** Up to two different such headers, one to six generations old, are accepted. */
  lemma SiblingsAccepted(c: seq<Block>, store: Store, i: nat, ks: seq<nat>, seconds: seq<int>, pow: Header -> bool, now: nat)
    requires 1 <= i < |c| && Linked(c) && Held(c, store, i)
    requires forall j, l :: 0 <= j < l < |c| ==> c[j].header.hash != c[l].header.hash
    requires |c[i].uncles| == |ks| == |seconds| <= 2
    requires forall a :: 0 <= a < |ks| ==> Sibling(c, i, c[i].uncles[a], ks[a], seconds[a], pow)
    requires |ks| == 2 ==> c[i].uncles[0].hash != c[i].uncles[1].hash
    ensures UnclesOk(store, c[i], pow, now)
  {
    var bs := BlocksFrom(store, c[i].header.parent, WINDOW);
    Below(c, store, i, WINDOW, bs);
    forall a | 0 <= a < |ks|
      ensures UncleOk(bs, c[i], a, pow, now)
    {
      SiblingOk(c, i, bs, a, ks[a], seconds[a], pow, now);
    }
  }

  lemma SiblingOk(c: seq<Block>, i: nat, bs: seq<Block>, a: nat, k: nat, seconds: int, pow: Header -> bool, now: nat)
    requires 1 <= i < |c| && Linked(c) && |bs| == Cut(WINDOW, i) && forall j :: 0 <= j < |bs| ==> bs[j] == c[i - 1 - j]
    requires forall j, l :: 0 <= j < l < |c| ==> c[j].header.hash != c[l].header.hash
    requires a < |c[i].uncles| <= 2 && Sibling(c, i, c[i].uncles[a], k, seconds, pow)
    requires |c[i].uncles| == 2 ==> c[i].uncles[0].hash != c[i].uncles[1].hash
    ensures UncleOk(bs, c[i], a, pow, now)
  {
    var u, parent := c[i].uncles[a], c[i - 1 - k].header;
    GeneratedValid(parent, u, seconds, true, true, true, now);
    assert Links(c, i) && bs[k].header == parent;
    assert IsParent(bs, c[i], u, parent);
  }

  /** An uncle is between one and six generations older than the block. */
  lemma UncleAge(c: seq<Block>, stores: seq<Store>, pow: Header -> bool, now: seq<nat>, i: nat, a: nat)
    requires Accepted(c, stores, pow, now) && Hashed(c) && 1 <= i < |c| && a < |c[i].uncles|
    ensures c[i].header.number - 6 <= c[i].uncles[a].number <= c[i].header.number - 1
    ensures c[0].header.number < c[i].uncles[a].number
  {
    var k := UncleParent(c, stores, pow, now, i, a);
    Numbers(c, i);
    Numbers(c, i - 1 - k);
  }

  /** No header is an uncle twice on an accepted chain. */
  lemma NoUncleTwice(c: seq<Block>, stores: seq<Store>, pow: Header -> bool, now: seq<nat>, i: nat, a: nat, j: nat, b: nat)
    requires Accepted(c, stores, pow, now) && Hashed(c)
    requires 1 <= i <= j < |c| && a < |c[i].uncles| && b < |c[j].uncles| && (i, a) != (j, b)
    ensures c[i].uncles[a].hash != c[j].uncles[b].hash
  {
    var bs := UncleFacts(c, stores, pow, now, j, b);
    if i == j {
      var bs' := UncleFacts(c, stores, pow, now, i, a);
    } else if j - 1 - i < |bs| {
      assert bs[j - 1 - i] == c[i];
      assert ListsUncle(bs[j - 1 - i], c[i].uncles[a].hash);
    } else {
      UncleAge(c, stores, pow, now, i, a);
      UncleAge(c, stores, pow, now, j, b);
      Numbers(c, i);
      Numbers(c, j);
      assert SameHash(c[i].uncles[a], c[j].uncles[b]);
    }
  }

  /** No block of an accepted chain is an uncle on it. */
  lemma NoBlockIsUncle(c: seq<Block>, stores: seq<Store>, pow: Header -> bool, now: seq<nat>, i: nat, a: nat, j: nat)
    requires Accepted(c, stores, pow, now) && Hashed(c)
    requires 1 <= i < |c| && j < |c| && a < |c[i].uncles|
    ensures c[i].uncles[a].hash != c[j].header.hash
  {
    var bs := UncleFacts(c, stores, pow, now, i, a);
    if j < i && i - 1 - j < |bs| {
      assert bs[i - 1 - j] == c[j];
    } else {
      UncleAge(c, stores, pow, now, i, a);
      Numbers(c, i);
      Numbers(c, j);
      assert SameHash(c[i].uncles[a], c[j].header);
    }
  }
}
