/** The transaction pool object of core/transaction_pool.go: maps and guessed
    nonces updated in place, proved to take exactly the steps of `TxPool`. Go
    iterates maps in no fixed order; here each loop picks any remaining key. */
module TxPoolObject {
  import opened Wrappers
  import opened TxPool
  import opened TxPoolProofs

  // ---------- lists of transactions ----------

  /** `s` lists the transactions of `m`, each once. */
  ghost predicate Lists(s: seq<Tx>, m: Txs) {
    && (forall i :: 0 <= i < |s| ==> s[i].hash in m && m[s[i].hash] == s[i])
    && (forall i, j :: 0 <= i < j < |s| ==> s[i].hash != s[j].hash)
    && (forall h: Hash {:trigger Listed(s, h)} :: h in m ==> Listed(s, h))
  }

  ghost predicate Listed(s: seq<Tx>, h: Hash) {
    exists i :: 0 <= i < |s| && s[i].hash == h
  }

  ghost predicate Sorted(s: seq<Tx>) {
    forall i, j :: 0 <= i < j < |s| ==> s[i].nonce <= s[j].nonce
  }

  lemma {:induction false} ListsSize(s: seq<Tx>, m: Txs)
    requires Lists(s, m)
    ensures |m| == |s|
    decreases |s|
  {
    if s == [] {
      assert forall h: Hash :: h in m ==> Listed(s, h);
      assert m.Keys == {};
    } else {
      var last := |s| - 1;
      var rest := m - {s[last].hash};
      forall h: Hash | h in rest ensures Listed(s[..last], h) {
        assert Listed(s, h);
        var i :| 0 <= i < |s| && s[i].hash == h;
        assert s[..last][i].hash == h;
      }
      ListsSize(s[..last], rest);
      assert m.Keys == rest.Keys + {s[last].hash};
    }
  }

  /** Any ordering of a list still lists the same transactions. */
  lemma Reordered(s: seq<Tx>, r: seq<Tx>, m: Txs)
    requires Lists(s, m) && multiset(r) == multiset(s)
    ensures Lists(r, m)
  {
    forall t: Tx ensures t in r <==> t in s {
      assert t in r <==> multiset(r)[t] > 0;
      assert t in s <==> multiset(s)[t] > 0;
    }
    forall i, j | 0 <= i < j < |r| ensures r[i].hash != r[j].hash {
      if r[i].hash == r[j].hash {
        assert r[i] in s && r[j] in s;
        Twice(r, i, j);
        Once(s, m, r[i]);
      }
    }
    forall h: Hash | h in m ensures Listed(r, h) {
      assert Listed(s, h);
      var i :| 0 <= i < |s| && s[i].hash == h;
      assert s[i] in r;
    }
    assert forall i :: 0 <= i < |r| ==> r[i] in s;
  }

  lemma Twice(r: seq<Tx>, i: nat, j: nat)
    requires i < j < |r| && r[i] == r[j]
    ensures multiset(r)[r[i]] >= 2
  {
    assert r == r[..i] + [r[i]] + r[i + 1..j] + [r[j]] + r[j + 1..];
  }

  lemma Once(s: seq<Tx>, m: Txs, t: Tx)
    requires Lists(s, m) && t in s
    ensures multiset(s)[t] == 1
  {
    var i :| 0 <= i < |s| && s[i] == t;
    assert s == s[..i] + [t] + s[i + 1..];
    assert t !in s[..i] && t !in s[i + 1..];
  }

  /** `sort.Sort` by nonce; the order among equal nonces is not promised. */
  method SortByNonce(s: seq<Tx>) returns (r: seq<Tx>)
    ensures Sorted(r) && multiset(r) == multiset(s)
  {
    r := [];
    var i := 0;
    while i < |s|
      invariant i <= |s| && Sorted(r) && multiset(r) == multiset(s[..i])
    {
      assert s[..i + 1] == s[..i] + [s[i]];
      r := InsertByNonce(r, s[i]);
      i := i + 1;
    }
    assert s[..i] == s;
  }

  method InsertByNonce(s: seq<Tx>, t: Tx) returns (r: seq<Tx>)
    requires Sorted(s)
    ensures Sorted(r) && multiset(r) == multiset(s) + multiset{t}
  {
    var k := |s|;
    while k > 0 && s[k - 1].nonce > t.nonce
      invariant 0 <= k <= |s|
      invariant forall j :: k <= j < |s| ==> s[j].nonce > t.nonce
    {
      k := k - 1;
    }
    r := s[..k] + [t] + s[k..];
    Inserted(s, k, t);
    SortedInsert(s, k, t, r);
  }

  lemma Inserted(s: seq<Tx>, k: nat, t: Tx)
    requires k <= |s|
    ensures var r := s[..k] + [t] + s[k..];
            && (forall i :: 0 <= i < k ==> r[i] == s[i]) && r[k] == t && (forall i :: k < i < |r| ==> r[i] == s[i - 1])
            && multiset(r) == multiset(s) + multiset{t}
  {
    assert s == s[..k] + s[k..];
  }

  lemma SortedInsert(s: seq<Tx>, k: nat, t: Tx, r: seq<Tx>)
    requires Sorted(s) && k <= |s| && |r| == |s| + 1
    requires (forall i :: 0 <= i < k ==> r[i] == s[i]) && r[k] == t && forall i :: k < i < |r| ==> r[i] == s[i - 1]
    requires forall j :: k <= j < |s| ==> s[j].nonce > t.nonce
    requires k > 0 ==> s[k - 1].nonce <= t.nonce
    ensures Sorted(r)
  {
    assert forall i :: 0 <= i < k ==> s[i].nonce <= t.nonce;
  }

  /** The live part of a queue. */
  ghost function LiveOf(c: Chain, a: Addr, txs: Txs): Txs {
    map h | h in txs && Live(c, a, txs[h]) :: txs[h]
  }

  /** The first pass over one sender's queue: drop what is past or out of funds. */
  method Sieve(c: Chain, a: Addr, txs: Txs) returns (live: Txs, promote: seq<Tx>)
    requires forall h: Hash :: h in txs ==> txs[h].hash == h
    ensures live == LiveOf(c, a, txs)
    ensures Lists(promote, live)
  {
    live, promote := txs, [];
    var rest := txs.Keys;
    ghost var seen: Txs := map[];
    while rest != {}
      invariant rest <= txs.Keys
      invariant forall h: Hash :: h in live <==> h in txs && (h in rest || Live(c, a, txs[h]))
      invariant forall h: Hash :: h in live ==> live[h] == txs[h]
      invariant forall h: Hash :: h in seen <==> h in txs && h !in rest && Live(c, a, txs[h])
      invariant forall h: Hash :: h in seen ==> seen[h] == txs[h]
      invariant Lists(promote, seen)
      decreases rest
    {
      var h :| h in rest;
      rest := rest - {h};
      if !Live(c, a, txs[h]) {
        live := live - {h};
      } else {
        ListsAppend(promote, seen, txs[h]);
        promote := promote + [txs[h]];
        seen := seen[h := txs[h]];
      }
    }
    assert live == seen;
  }

  lemma ListsAppend(s: seq<Tx>, m: Txs, t: Tx)
    requires Lists(s, m) && t.hash !in m
    ensures Lists(s + [t], m[t.hash := t])
  {
    forall h: Hash | h in m[t.hash := t] ensures Listed(s + [t], h) {
      if h == t.hash {
        assert (s + [t])[|s|].hash == h;
      } else {
        assert Listed(s, h);
        var i :| 0 <= i < |s| && s[i].hash == h;
        assert (s + [t])[i].hash == h;
      }
    }
  }

  // ---------- how far promotion runs ----------

  /** The first `i` entries have been promoted and the guess has moved to `g`. */
  ghost predicate Ran(promote: seq<Tx>, g0: nat, i: nat, g: nat) {
    && i <= |promote| && g0 <= g
    && (forall j :: 0 <= j < i ==> promote[j].nonce < g)
    && (forall n: nat :: g0 <= n < g ==> NonceBefore(promote, i, n))
  }

  ghost predicate NonceBefore(promote: seq<Tx>, i: nat, n: nat)
    requires i <= |promote|
  {
    exists j :: 0 <= j < i && promote[j].nonce == n
  }

  lemma RanStep(promote: seq<Tx>, g0: nat, i: nat, g: nat)
    requires Ran(promote, g0, i, g) && i < |promote| && promote[i].nonce <= g
    ensures Ran(promote, g0, i + 1, if promote[i].nonce == g then g + 1 else g)
  {
    var g' := if promote[i].nonce == g then g + 1 else g;
    var i' := i + 1;
    forall n: nat | g0 <= n < g' ensures NonceBefore(promote, i', n) {
      if n < g {
        assert NonceBefore(promote, i, n);
        var j :| 0 <= j < i && promote[j].nonce == n;
        assert promote[j].nonce == n && j < i + 1;
      } else {
        assert promote[i].nonce == n;
      }
    }
  }

  /** Where promotion stops is the sender's reach, and the sorted list splits
      there into what is promoted and what waits. */
  lemma RanStops(p: Pool, a: Addr, promote: seq<Tx>, i: nat, g: nat)
    requires p.managed.Some? && Sorted(promote)
    requires Lists(promote, LiveOf(p.chain, a, Of(p.queue, a)))
    requires Ran(promote, Guess(p, a), i, g) && (i < |promote| ==> promote[i].nonce > g)
    ensures Reach(LineOf(p, a)) == g
    ensures forall j :: 0 <= j < i ==> Promoted(LineOf(p, a), promote[j].hash) && Of(p.queue, a)[promote[j].hash] == promote[j]
    ensures forall j :: i <= j < |promote| ==> promote[j].hash in Waiting(LineOf(p, a)) && Of(p.queue, a)[promote[j].hash] == promote[j]
    ensures forall h: Hash :: Promoted(LineOf(p, a), h) ==> Listed(promote[..i], h)
    ensures forall h: Hash :: h in Waiting(LineOf(p, a)) ==> Listed(promote[i..], h)
  {
    var live := LiveOf(p.chain, a, Of(p.queue, a));
    var s := LiveNonces(p.chain, a, Of(p.queue, a));
    assert forall j :: i <= j < |promote| ==> promote[j].nonce > g;
    forall n: nat | Guess(p, a) <= n < g ensures n in s {
      assert NonceBefore(promote, i, n);
      var j :| 0 <= j < i && promote[j].nonce == n;
      assert promote[j].hash in live;
    }
    forall h: Hash | h in live ensures live[h].nonce != g {
      assert Listed(promote, h);
    }
    forall n: nat | n in s ensures n != g {
      var h :| h in Of(p.queue, a) && Live(p.chain, a, Of(p.queue, a)[h]) && Of(p.queue, a)[h].nonce == n;
      assert h in live;
    }
    GapUnique(s, Guess(p, a), g);
    assert forall j :: 0 <= j < |promote| ==> promote[j].hash in live;
    forall h: Hash | h in live ensures if live[h].nonce < g then Listed(promote[..i], h) else Listed(promote[i..], h) {
      assert Listed(promote, h);
      var j :| 0 <= j < |promote| && promote[j].hash == h;
      if j < i {
        assert promote[..i][j].hash == h;
      } else {
        assert promote[i..][j - i].hash == h;
      }
    }
  }

  // ---------- one sender, on values ----------

  /** What the promotion loop has done after `i` entries: pending has grown by
      them, the queue of `a` still lists the others, the guess is the last
      promoted nonce plus one. */
  ghost predicate Promoting(p: Pool, q: Pool, a: Addr, promote: seq<Tx>, i: nat)
    requires p.managed.Some? && q.managed.Some? && i <= |promote|
  {
    && q == p.(pending := q.pending, queue := q.queue, managed := q.managed)
    && Grown(p.pending, q.pending, promote[..i])
    && q.queue == p.queue[a := Of(q.queue, a)]
    && (forall b: Addr :: b != a ==> Guess(q, b) == Guess(p, b))
    && Guess(q, a) == if i == 0 then Guess(p, a) else promote[i - 1].nonce + 1
  }

  /** `now` is `was` with exactly the listed transactions added. */
  ghost predicate Grown(was: Txs, now: Txs, added: seq<Tx>) {
    && (forall h: Hash :: h in was ==> h in now && now[h] == was[h])
    && (forall j :: 0 <= j < |added| ==> added[j].hash in now && now[added[j].hash] == added[j])
    && (forall h: Hash {:trigger Listed(added, h)} :: h in now ==> h in was || Listed(added, h))
  }

  lemma GrownStep(was: Txs, now: Txs, added: seq<Tx>, t: Tx)
    requires Grown(was, now, added) && t.hash !in now
    ensures Grown(was, now[t.hash := t], added + [t])
  {
    forall h: Hash | h in now[t.hash := t] ensures h in was || Listed(added + [t], h) {
      if h == t.hash {
        assert (added + [t])[|added|].hash == h;
      } else if h !in was {
        assert Listed(added, h);
        var j :| 0 <= j < |added| && added[j].hash == h;
        assert (added + [t])[j].hash == h;
      }
    }
  }

  lemma ListsTail(s: seq<Tx>, m: Txs)
    requires Lists(s, m) && s != []
    ensures Lists(s[1..], m - {s[0].hash})
  {
    forall h: Hash | h in m - {s[0].hash} ensures Listed(s[1..], h) {
      assert Listed(s, h);
      var i :| 0 <= i < |s| && s[i].hash == h;
      assert s[1..][i - 1].hash == h;
    }
  }

  /** What is true once `checkQueue` has dealt with sender `a` alone. */
  ghost predicate CheckedSender(p: Pool, q: Pool, a: Addr)
    requires p.managed.Some?
  {
    && q.managed.Some? && OthersKept(p, q, a) && CheckedFor(p, q, a)
    && (a in q.queue ==> q.queue[a] != map[])
    && PendingGrown(p, a, q.pending)
  }

  ghost predicate OthersKept(p: Pool, q: Pool, a: Addr)
    requires p.managed.Some? && q.managed.Some?
  {
    && q == p.(pending := q.pending, queue := q.queue, managed := q.managed)
    && (forall b: Addr :: b != a ==> (b in q.queue <==> b in p.queue) && Of(q.queue, b) == Of(p.queue, b) && Guess(q, b) == Guess(p, b))
  }

  ghost function WaitingTxs(p: Pool, a: Addr): (m: Txs)
    requires p.managed.Some?
    ensures m.Keys == Waiting(LineOf(p, a))
  {
    map h | h in Waiting(LineOf(p, a)) :: Of(p.queue, a)[h]
  }

  function Least(x: nat, y: nat): nat {
    if x < y then x else y
  }

  lemma {:induction false} ListsPrefix(s: seq<Tx>, m: Txs, n: nat, part: Txs, h: Hash)
    requires Lists(s, m) && n <= |s| && Lists(s[..n], part) && h in part
    ensures h in m && part[h] == m[h] && exists j :: 0 <= j < n && s[j].hash == h
  {
    assert Listed(s[..n], h);
    var j :| 0 <= j < n && s[..n][j].hash == h;
    assert s[j] == s[..n][j];
  }

  /** Keeping the first 64 of the waiting transactions, sorted by nonce. */
  lemma KeptOrder(s: seq<Tx>, m: Txs, n: nat, kept: Txs, h: Hash, k: Hash)
    requires Sorted(s) && Lists(s, m) && n <= |s| && Lists(s[..n], kept)
    requires h in m && h !in kept && k in kept
    ensures kept[k].nonce <= m[h].nonce
  {
    ListsPrefix(s, m, n, kept, k);
    var y :| 0 <= y < n && s[y].hash == k;
    assert forall j :: 0 <= j < n ==> s[..n][j] == s[j] && s[..n][j].hash in kept;
    assert Listed(s, h);
    var x :| 0 <= x < |s| && s[x].hash == h;
  }

  lemma KeptCount(s: seq<Tx>, m: Txs, n: nat, kept: Txs)
    requires Lists(s, m) && n == Least(|s|, MAX_QUEUED) && Lists(s[..n], kept)
    ensures |m| <= MAX_QUEUED ==> kept.Keys == m.Keys
    ensures |m| > MAX_QUEUED ==> |kept| == MAX_QUEUED
  {
    ListsSize(s, m);
    ListsSize(s[..n], kept);
    if |s| <= MAX_QUEUED {
      assert s[..n] == s;
      SameKeys(s, m, kept);
    }
  }

  lemma SameKeys(s: seq<Tx>, m: Txs, m': Txs)
    requires Lists(s, m) && Lists(s, m')
    ensures m.Keys == m'.Keys
  {
    forall h: Hash
      ensures h in m <==> h in m'
    {
      assert h in m ==> Listed(s, h);
      assert h in m' ==> Listed(s, h);
    }
  }

  lemma KeptLists(p: Pool, a: Addr, s: seq<Tx>, kept: Txs)
    requires p.managed.Some? && Sorted(s) && Lists(s, WaitingTxs(p, a))
    requires Lists(s[..Least(|s|, MAX_QUEUED)], kept)
    ensures KeptFor(LineOf(p, a), kept)
  {
    var m, n := WaitingTxs(p, a), Least(|s|, MAX_QUEUED);
    KeptCount(s, m, n, kept);
    assert |m| == |m.Keys|;
    forall h: Hash | h in kept
      ensures h in m && kept[h] == m[h]
    {
      ListsPrefix(s, m, n, kept, h);
    }
    forall h: Hash, k: Hash | h in m && h !in kept && k in kept
      ensures kept[k].nonce <= m[h].nonce
    {
      KeptOrder(s, m, n, kept, h, k);
    }
    KeptIs(p, a, kept);
  }

  lemma KeptIs(p: Pool, a: Addr, kept: Txs)
    requires p.managed.Some?
    requires var m := WaitingTxs(p, a);
             && (forall h: Hash :: h in kept ==> h in m && kept[h] == m[h])
             && (|m| <= MAX_QUEUED ==> kept.Keys == m.Keys) && (|m| > MAX_QUEUED ==> |kept| == MAX_QUEUED)
             && (forall h: Hash, k: Hash :: h in m && h !in kept && k in kept ==> kept[k].nonce <= m[h].nonce)
    ensures KeptFor(LineOf(p, a), kept)
  {
    var m := WaitingTxs(p, a);
    assert |m| == |m.Keys|;
  }

  /** The loop has stopped at entry `i` with guess `g`. */
  ghost predicate Stopped(p: Pool, a: Addr, promote: seq<Tx>, i: nat, g: nat)
    requires p.managed.Some?
  {
    && Sorted(promote) && Lists(promote, LiveOf(p.chain, a, Of(p.queue, a)))
    && Ran(promote, Guess(p, a), i, g) && (i < |promote| ==> promote[i].nonce > g)
  }

  lemma StoppedWaiting(p: Pool, a: Addr, promote: seq<Tx>, i: nat, g: nat, left: seq<Tx>)
    requires p.managed.Some? && Stopped(p, a, promote, i, g) && left == promote[i..]
    ensures Sorted(left) && Lists(left, WaitingTxs(p, a))
  {
    RanStops(p, a, promote, i, g);
  }

  lemma StoppedGuess(p: Pool, a: Addr, promote: seq<Tx>, i: nat, g: nat)
    requires p.managed.Some? && Stopped(p, a, promote, i, g)
    ensures GuessedFor(LineOf(p, a), if i == 0 then Guess(p, a) else promote[i - 1].nonce + 1)
  {
    RanStops(p, a, promote, i, g);
    forall h: Hash | Promoted(LineOf(p, a), h) ensures i > 0 && Of(p.queue, a)[h].nonce <= promote[i - 1].nonce {
      assert Listed(promote[..i], h);
      var j :| 0 <= j < i && promote[..i][j].hash == h;
      assert promote[j] == promote[..i][j] && promote[j].nonce <= promote[i - 1].nonce;
    }
    if i > 0 {
      assert Promoted(LineOf(p, a), promote[i - 1].hash);
    }
  }

  lemma StoppedPending(p: Pool, a: Addr, promote: seq<Tx>, i: nat, g: nat, pending: Txs, h: Hash)
    requires p.managed.Some? && Stopped(p, a, promote, i, g) && Grown(p.pending, pending, promote[..i])
    ensures Promoted(LineOf(p, a), h) ==> h in pending && pending[h] == Of(p.queue, a)[h]
    ensures h in pending && h !in p.pending ==> Promoted(LineOf(p, a), h)
  {
    RanStops(p, a, promote, i, g);
    if Listed(promote[..i], h) {
      var j :| 0 <= j < i && promote[..i][j].hash == h;
      assert promote[j] == promote[..i][j] && Promoted(LineOf(p, a), promote[j].hash);
    }
  }

  lemma PromotionFrame(p: Pool, r: Pool, q: Pool, a: Addr, promote: seq<Tx>, i: nat, kept: Txs)
    requires p.managed.Some? && r.managed.Some? && i <= |promote| && Promoting(p, r, a, promote, i)
    requires q == r.(queue := if kept == map[] then r.queue - {a} else r.queue[a := kept])
    ensures OthersKept(p, q, a) && Of(q.queue, a) == kept && Guess(q, a) == Guess(r, a)
    ensures a in q.queue ==> q.queue[a] != map[]
  {
    assert forall b: Addr :: Guess(q, b) == Guess(r, b);
  }

  lemma PromotionKept(p: Pool, a: Addr, promote: seq<Tx>, i: nat, g: nat, left: seq<Tx>, kept: Txs)
    requires p.managed.Some? && Stopped(p, a, promote, i, g) && left == promote[i..]
    requires Lists(left[..Least(|left|, MAX_QUEUED)], kept)
    ensures KeptFor(LineOf(p, a), kept)
  {
    StoppedWaiting(p, a, promote, i, g, left);
    KeptLists(p, a, left, kept);
  }

  /** Pending after the loop: what was there, and what was promoted. */
  ghost predicate PendingGrown(p: Pool, a: Addr, pending: Txs)
    requires p.managed.Some?
  {
    && (forall h: Hash :: h in p.pending ==> h in pending && pending[h] == p.pending[h])
    && (forall h: Hash :: Promoted(LineOf(p, a), h) ==> h in pending && pending[h] == Of(p.queue, a)[h])
    && (forall h: Hash :: h in pending && h !in p.pending ==> Promoted(LineOf(p, a), h))
  }

  lemma PromotionGrown(p: Pool, a: Addr, promote: seq<Tx>, i: nat, g: nat, pending: Txs)
    requires p.managed.Some? && Stopped(p, a, promote, i, g) && Grown(p.pending, pending, promote[..i])
    ensures PendingGrown(p, a, pending)
  {
    forall h: Hash
      ensures Promoted(LineOf(p, a), h) ==> h in pending && pending[h] == Of(p.queue, a)[h]
      ensures h in pending && h !in p.pending ==> Promoted(LineOf(p, a), h)
    {
      StoppedPending(p, a, promote, i, g, pending, h);
    }
  }

  lemma PromotionChecked(p: Pool, a: Addr, promote: seq<Tx>, i: nat, g: nat, left: seq<Tx>, kept: Txs, guess: nat)
    requires p.managed.Some? && Stopped(p, a, promote, i, g) && left == promote[i..]
    requires Lists(left[..Least(|left|, MAX_QUEUED)], kept)
    requires guess == if i == 0 then Guess(p, a) else promote[i - 1].nonce + 1
    ensures KeptFor(LineOf(p, a), kept) && GuessedFor(LineOf(p, a), guess)
  {
    PromotionKept(p, a, promote, i, g, left, kept);
    StoppedGuess(p, a, promote, i, g);
  }

  /** The loop's end state, with the queue cut to the first 64 waiting. */
  lemma PromotionEnds(p: Pool, r: Pool, q: Pool, a: Addr, promote: seq<Tx>, i: nat, g: nat, left: seq<Tx>, kept: Txs)
    requires p.managed.Some? && r.managed.Some? && Stopped(p, a, promote, i, g) && Promoting(p, r, a, promote, i)
    requires left == promote[i..] && Lists(left[..Least(|left|, MAX_QUEUED)], kept)
    requires q == r.(queue := if kept == map[] then r.queue - {a} else r.queue[a := kept])
    ensures CheckedSender(p, q, a)
  {
    PromotionFrame(p, r, q, a, promote, i, kept);
    PromotionChecked(p, a, promote, i, g, left, kept, Guess(q, a));
    PromotionGrown(p, a, promote, i, g, q.pending);
  }

  // ---------- all senders ----------

  /** The senders outside `todo` have been dealt with, the others not yet. */
  ghost predicate Checking(p: Pool, q: Pool, todo: set<Addr>)
    requires p.managed.Some?
  {
    && q == p.(pending := q.pending, queue := q.queue, managed := q.managed) && q.managed.Some?
    && todo <= p.queue.Keys && Filed(q.pending, q.queue)
    && (forall a: Addr {:trigger Dealt(p, q, a)} :: a !in todo ==> Dealt(p, q, a))
    && (forall a: Addr {:trigger Untouched(p, q, a)} :: a in todo ==> Untouched(p, q, a))
    && (forall h: Hash :: h in p.pending ==> h in q.pending && q.pending[h] == p.pending[h])
    && (forall h: Hash :: h in q.pending && h !in p.pending ==>
          q.pending[h].sender.Some? && Promoted(LineOf(p, q.pending[h].sender.value), h))
  }

  ghost predicate Dealt(p: Pool, q: Pool, a: Addr)
    requires p.managed.Some? && q.managed.Some?
  {
    && CheckedFor(p, q, a) && (a in q.queue ==> q.queue[a] != map[])
    && (forall h: Hash :: Promoted(LineOf(p, a), h) ==> h in q.pending && q.pending[h] == Of(p.queue, a)[h])
  }

  predicate Untouched(p: Pool, q: Pool, a: Addr)
    requires p.managed.Some? && q.managed.Some?
  {
    a in q.queue && a in p.queue && q.queue[a] == p.queue[a] && Guess(q, a) == Guess(p, a)
  }

  lemma EmptyLine(l: Line)
    requires l.txs == map[]
    ensures KeptFor(l, map[]) && GuessedFor(l, l.guess)
  {
    assert Waiting(l) == {};
  }

  lemma CheckingStarts(p: Pool)
    requires p.managed.Some? && Filed(p.pending, p.queue)
    ensures Checking(p, p, p.queue.Keys)
  {
    forall a: Addr | a !in p.queue ensures CheckedFor(p, p, a) {
      EmptyLine(LineOf(p, a));
    }
    assert forall a: Addr, h: Hash :: a !in p.queue ==> !Promoted(LineOf(p, a), h);
  }

  /** Dealing with one sender leaves everything filed. */
  lemma SenderFiled(p: Pool, q: Pool, a: Addr)
    requires p.managed.Some? && Filed(p.pending, p.queue) && CheckedSender(p, q, a)
    ensures Filed(q.pending, q.queue)
  {
    forall b: Addr, h: Hash | Holds(q.queue, b, h)
      ensures Of(q.queue, b)[h].hash == h && Of(q.queue, b)[h].sender == Some(b) && h !in q.pending
    {
      SenderHolds(p, q, a, b, h);
    }
    forall b: Addr, c: Addr, h: Hash | Holds(q.queue, b, h) && Holds(q.queue, c, h) ensures b == c {
      SenderHolds(p, q, a, b, h);
      SenderHolds(p, q, a, c, h);
    }
    forall h: Hash | h in q.pending ensures q.pending[h].hash == h && q.pending[h].sender.Some? {
      SenderPending(p, q, a, h);
    }
  }

  lemma SenderPending(p: Pool, q: Pool, a: Addr, h: Hash)
    requires p.managed.Some? && Filed(p.pending, p.queue) && CheckedSender(p, q, a) && h in q.pending
    ensures q.pending[h].hash == h && q.pending[h].sender.Some?
    ensures h !in p.pending ==> q.pending[h].sender == Some(a) && Promoted(LineOf(p, a), h)
  {
    if h !in p.pending {
      assert Promoted(LineOf(p, a), h);
      assert Holds(p.queue, a, h);
    }
  }

  lemma SenderHolds(p: Pool, q: Pool, a: Addr, b: Addr, h: Hash)
    requires p.managed.Some? && Filed(p.pending, p.queue) && CheckedSender(p, q, a) && Holds(q.queue, b, h)
    ensures Holds(p.queue, b, h) && Of(q.queue, b)[h] == Of(p.queue, b)[h] && h !in q.pending
  {
    if b == a {
      assert h in Waiting(LineOf(p, a));
    }
    assert Holds(p.queue, b, h);
    assert h in q.pending ==> Holds(p.queue, a, h);
  }

  lemma CheckingStepFor(p: Pool, r: Pool, q: Pool, todo: set<Addr>, a: Addr, b: Addr)
    requires p.managed.Some? && Checking(p, r, todo) && a in todo && CheckedSender(r, q, a)
    ensures b !in todo - {a} ==> Dealt(p, q, b)
    ensures b in todo - {a} ==> Untouched(p, q, b)
  {
    assert Untouched(p, r, a);
    if b == a {
      assert LineOf(r, a) == LineOf(p, a);
    } else if b in todo {
      assert Untouched(p, r, b);
    } else {
      assert Dealt(p, r, b);
    }
  }

  lemma CheckingStepPending(p: Pool, r: Pool, q: Pool, todo: set<Addr>, a: Addr, h: Hash)
    requires p.managed.Some? && Checking(p, r, todo) && a in todo && CheckedSender(r, q, a)
    requires h in q.pending && h !in p.pending
    ensures q.pending[h].sender.Some? && Promoted(LineOf(p, q.pending[h].sender.value), h)
  {
    SenderPending(r, q, a, h);
    assert Untouched(p, r, a);
    assert LineOf(r, a) == LineOf(p, a);
  }

  lemma CheckingStep(p: Pool, r: Pool, q: Pool, todo: set<Addr>, a: Addr)
    requires p.managed.Some? && Filed(p.pending, p.queue) && Checking(p, r, todo) && a in todo && CheckedSender(r, q, a)
    ensures Checking(p, q, todo - {a})
  {
    SenderFiled(r, q, a);
    forall b: Addr
      ensures b !in todo - {a} ==> Dealt(p, q, b)
      ensures b in todo - {a} ==> Untouched(p, q, b)
    {
      CheckingStepFor(p, r, q, todo, a, b);
    }
    forall h: Hash | h in q.pending && h !in p.pending
      ensures q.pending[h].sender.Some? && Promoted(LineOf(p, q.pending[h].sender.value), h)
    {
      CheckingStepPending(p, r, q, todo, a, h);
    }
  }

  lemma CheckingEnds(p: Pool, q: Pool)
    requires p.managed.Some? && Checking(p, q, {})
    ensures Checked(p, q)
  {
    forall a: Addr
      ensures CheckedFor(p, q, a) && (a in q.queue ==> q.queue[a] != map[])
      ensures forall h: Hash :: Promoted(LineOf(p, a), h) ==> h in q.pending && q.pending[h] == Of(p.queue, a)[h]
    {
      assert Dealt(p, q, a);
    }
  }

  // ---------- one promotion ----------

  /** What is about to be promoted is not pending yet. */
  lemma PromoteFresh(p: Pool, pending: Txs, a: Addr, promote: seq<Tx>, i: nat)
    requires Filed(p.pending, p.queue) && Lists(promote, LiveOf(p.chain, a, Of(p.queue, a)))
    requires i < |promote| && Grown(p.pending, pending, promote[..i])
    ensures promote[i].hash !in pending
  {
    var h := promote[i].hash;
    assert h in LiveOf(p.chain, a, Of(p.queue, a));
    assert Holds(p.queue, a, h);
    assert h in pending ==> Listed(promote[..i], h);
  }

  /** The state after promoting one more entry. */
  ghost function PromoteOne(q: Pool, a: Addr, tx: Tx): Pool
    requires q.managed.Some?
  {
    q.(pending := q.pending[tx.hash := tx], managed := Some(q.managed.value[a := tx.nonce + 1]),
       queue := q.queue[a := Of(q.queue, a) - {tx.hash}])
  }

  /** The promotion loop's invariant. */
  ghost predicate InLoop(p: Pool, q: Pool, a: Addr, promote: seq<Tx>, i: nat, guessed: nat)
    requires p.managed.Some? && q.managed.Some?
  {
    && Ran(promote, Guess(p, a), i, guessed)
    && Promoting(p, q, a, promote, i) && Lists(promote[i..], Of(q.queue, a))
  }

  lemma LoopStarts(p: Pool, q: Pool, a: Addr, promote: seq<Tx>)
    requires p.managed.Some? && Lists(promote, LiveOf(p.chain, a, Of(p.queue, a)))
    requires q == p.(queue := p.queue[a := LiveOf(p.chain, a, Of(p.queue, a))])
    ensures InLoop(p, q, a, promote, 0, Guess(p, a))
  {
    assert promote[0..] == promote;
    assert forall b: Addr :: Guess(q, b) == Guess(p, b);
  }

  lemma StepPromoting(p: Pool, q: Pool, a: Addr, promote: seq<Tx>, i: nat)
    requires p.managed.Some? && q.managed.Some? && i < |promote| && promote[i].hash !in q.pending
    requires Promoting(p, q, a, promote, i)
    ensures Promoting(p, PromoteOne(q, a, promote[i]), a, promote, i + 1)
  {
    GrownStep(p.pending, q.pending, promote[..i], promote[i]);
    assert promote[..i + 1] == promote[..i] + [promote[i]];
    var r := PromoteOne(q, a, promote[i]);
    assert forall b: Addr :: Guess(r, b) == if b == a then promote[i].nonce + 1 else Guess(q, b);
  }

  lemma StepLists(q: Pool, a: Addr, promote: seq<Tx>, i: nat)
    requires q.managed.Some? && i < |promote| && Lists(promote[i..], Of(q.queue, a))
    ensures Lists(promote[i + 1..], Of(PromoteOne(q, a, promote[i]).queue, a))
  {
    ListsTail(promote[i..], Of(q.queue, a));
    assert promote[i..][1..] == promote[i + 1..];
  }

  lemma LoopStep(p: Pool, q: Pool, a: Addr, promote: seq<Tx>, i: nat, guessed: nat)
    requires p.managed.Some? && q.managed.Some? && Filed(p.pending, p.queue) && i < |promote|
    requires Lists(promote, LiveOf(p.chain, a, Of(p.queue, a)))
    requires InLoop(p, q, a, promote, i, guessed) && promote[i].nonce <= guessed
    ensures promote[i].hash !in q.pending
    ensures InLoop(p, PromoteOne(q, a, promote[i]), a, promote, i + 1, if promote[i].nonce == guessed then guessed + 1 else guessed)
  {
    RanStep(promote, Guess(p, a), i, guessed);
    PromoteFresh(p, q.pending, a, promote, i);
    StepPromoting(p, q, a, promote, i);
    StepLists(q, a, promote, i);
  }

  // ---------- validatePool ----------

  /** After the first loop has seen all of pending but `rest`: only live ones are
      left of what it saw, and `gaps` holds each sender's smallest broke nonce. */
  ghost predicate Sifted(p: Pool, pending: Txs, gaps: map<Addr, nat>, rest: set<Hash>) {
    && rest <= p.pending.Keys
    && (forall h: Hash :: h in pending <==> h in p.pending && (h in rest || LiveTx(p.chain, p.pending[h])))
    && (forall h: Hash :: h in pending ==> pending[h] == p.pending[h])
    && (forall h: Hash, a: Addr :: From(p.pending, h, a) && h !in rest && Broke(p.chain, a, p.pending[h]) ==>
          a in gaps && gaps[a] <= p.pending[h].nonce)
    && (forall a: Addr :: a in gaps ==> BrokeAt(p, a, gaps[a]))
  }

  predicate LiveTx(c: Chain, tx: Tx) {
    tx.sender.Some? && Live(c, tx.sender.value, tx)
  }

  ghost predicate BrokeAt(p: Pool, a: Addr, n: nat) {
    exists h: Hash :: From(p.pending, h, a) && Broke(p.chain, a, p.pending[h]) && p.pending[h].nonce == n
  }

  predicate Beyond(gaps: map<Addr, nat>, tx: Tx) {
    tx.sender.Some? && tx.sender.value in gaps && gaps[tx.sender.value] <= tx.nonce
  }

  /** The gaps found decide exactly which transactions are postponed. */
  lemma GapsDecide(p: Pool, pending: Txs, gaps: map<Addr, nat>, h: Hash, a: Addr)
    requires Sifted(p, pending, gaps, {}) && From(p.pending, h, a)
    ensures Beyond(gaps, p.pending[h]) <==> Postponed(p.chain, p.pending, a, p.pending[h])
  {
    if Beyond(gaps, p.pending[h]) {
      assert BrokeAt(p, a, gaps[a]);
      var k :| From(p.pending, k, a) && Broke(p.chain, a, p.pending[k]) && p.pending[k].nonce == gaps[a];
    }
  }

  /** After the second loop has seen all live ones but `rest`: those beyond a gap
      have gone to the queue. */
  ghost predicate Moved(p: Pool, gaps: map<Addr, nat>, pending: Txs, queue: map<Addr, Txs>, rest: set<Hash>) {
    && (forall h: Hash :: h in pending <==>
          h in p.pending && LiveTx(p.chain, p.pending[h]) && (h in rest || !Beyond(gaps, p.pending[h])))
    && (forall h: Hash :: h in pending ==> pending[h] == p.pending[h])
    && (forall h: Hash, a: Addr :: From(p.pending, h, a) && LiveTx(p.chain, p.pending[h]) && h !in rest && Beyond(gaps, p.pending[h]) ==>
          Holds(queue, a, h) && Of(queue, a)[h] == p.pending[h])
    && (forall a: Addr, h: Hash :: Holds(p.queue, a, h) ==> Holds(queue, a, h))
    && (forall a: Addr, h: Hash :: Holds(queue, a, h) ==> Came(p, pending, queue, a, h))
  }

  ghost predicate Came(p: Pool, pending: Txs, queue: map<Addr, Txs>, a: Addr, h: Hash)
    requires Holds(queue, a, h)
  {
    || (Holds(p.queue, a, h) && Of(queue, a)[h] == Of(p.queue, a)[h])
    || (From(p.pending, h, a) && LiveTx(p.chain, p.pending[h]) && h !in pending && Of(queue, a)[h] == p.pending[h])
  }

  lemma MovedIsValidated(p: Pool, mid: Txs, gaps: map<Addr, nat>, q: Pool)
    requires Sifted(p, mid, gaps, {}) && Moved(p, gaps, q.pending, q.queue, {})
    requires q == p.(pending := q.pending, queue := q.queue)
    ensures Validated(p, q)
  {
    forall h: Hash, a: Addr | From(p.pending, h, a) ensures Fate(p, q, h, a) {
      GapsDecide(p, mid, gaps, h, a);
    }
    forall a: Addr, h: Hash | Holds(q.queue, a, h) ensures Returned(p, q, a, h) {
      assert Came(p, q.pending, q.queue, a, h);
    }
  }

  lemma SiftStep(p: Pool, pending: Txs, gaps: map<Addr, nat>, rest: set<Hash>, h: Hash, a: Addr, gaps': map<Addr, nat>)
    requires Sifted(p, pending, gaps, rest) && h in rest && From(p.pending, h, a)
    requires gaps' == if Broke(p.chain, a, p.pending[h]) && !(a in gaps && gaps[a] <= p.pending[h].nonce)
                      then gaps[a := p.pending[h].nonce] else gaps
    ensures Sifted(p, if LiveTx(p.chain, p.pending[h]) then pending else pending - {h}, gaps', rest - {h})
  {
    forall b: Addr | b in gaps' ensures BrokeAt(p, b, gaps'[b]) {
      if b in gaps && gaps'[b] == gaps[b] {
        assert BrokeAt(p, b, gaps[b]);
      }
    }
  }

  lemma QueuedHolds(queue: map<Addr, Txs>, a: Addr, h: Hash, tx: Tx, b: Addr, k: Hash)
    ensures var queue' := queue[a := Of(queue, a)[h := tx]];
            && (Holds(queue', b, k) <==> Holds(queue, b, k) || (b == a && k == h))
            && (Holds(queue', b, k) ==> Of(queue', b)[k] == if b == a && k == h then tx else Of(queue, b)[k])
  {
  }

  lemma MoveCame(p: Pool, pending: Txs, queue: map<Addr, Txs>, h: Hash, a: Addr, b: Addr, k: Hash)
    requires From(p.pending, h, a) && LiveTx(p.chain, p.pending[h])
    requires Holds(queue, b, k) ==> Came(p, pending, queue, b, k)
    requires Holds(queue[a := Of(queue, a)[h := p.pending[h]]], b, k)
    ensures Came(p, pending - {h}, queue[a := Of(queue, a)[h := p.pending[h]]], b, k)
  {
    QueuedHolds(queue, a, h, p.pending[h], b, k);
  }

  /** Queueing a transaction that was pending. */
  lemma MoveStep(p: Pool, gaps: map<Addr, nat>, pending: Txs, queue: map<Addr, Txs>, rest: set<Hash>, h: Hash, a: Addr)
    requires Filed(p.pending, p.queue) && Moved(p, gaps, pending, queue, rest) && h in rest && h in pending && From(p.pending, h, a)
    requires Beyond(gaps, p.pending[h])
    ensures Moved(p, gaps, pending - {h}, queue[a := Of(queue, a)[h := p.pending[h]]], rest - {h})
  {
    var queue' := queue[a := Of(queue, a)[h := p.pending[h]]];
    forall b: Addr, k: Hash
      ensures Holds(queue', b, k) <==> Holds(queue, b, k) || (b == a && k == h)
      ensures Holds(queue', b, k) ==> Of(queue', b)[k] == if b == a && k == h then p.pending[h] else Of(queue, b)[k]
    {
      QueuedHolds(queue, a, h, p.pending[h], b, k);
    }
    forall b: Addr, k: Hash | Holds(queue', b, k)
      ensures Came(p, pending - {h}, queue', b, k)
    {
      MoveCame(p, pending, queue, h, a, b, k);
    }
  }

  /** Between the loops nothing has been moved yet; without gaps nothing will be. */
  lemma SiftedMoved(p: Pool, mid: Txs, gaps: map<Addr, nat>)
    requires Sifted(p, mid, gaps, {})
    ensures Moved(p, gaps, mid, p.queue, mid.Keys)
    ensures gaps == map[] ==> Moved(p, gaps, mid, p.queue, {})
  {
  }

  /** The guesses cover the pending transactions outside `rest`, and no more. */
  ghost predicate Rebasing(q: Pool, rest: set<Hash>)
    requires q.managed.Some?
  {
    && (forall h: Hash, a: Addr :: From(q.pending, h, a) && h !in rest ==> q.pending[h].nonce < Guess(q, a))
    && (forall a: Addr :: Nonce(q.chain, a) <= Guess(q, a))
    && (forall a: Addr :: Guess(q, a) > Nonce(q.chain, a) ==> HasPending(q.pending, a, Guess(q, a) - 1))
  }

  lemma RebasingEnds(p: Pool, q: Pool)
    requires q.managed.Some? && q == p.(managed := q.managed) && Rebasing(q, {})
    ensures Rebased(p, q)
  {
  }

  lemma RebasingStarts(q: Pool)
    requires q.managed == Some(map[])
    ensures Rebasing(q, q.pending.Keys)
  {
  }

  lemma RebaseStep(q: Pool, q': Pool, rest: set<Hash>, h: Hash, a: Addr, n: nat)
    requires q.managed.Some? && Rebasing(q, rest) && From(q.pending, h, a) && n == q.pending[h].nonce
    requires q' == if Guess(q, a) <= n then q.(managed := Some(q.managed.value[a := n + 1])) else q
    ensures Rebasing(q', rest - {h})
  {
    if Guess(q, a) <= n {
      assert forall b: Addr :: Guess(q', b) == if b == a then n + 1 else Guess(q, b);
    }
  }

  // ---------- the pool object ----------

  class TransactionPool {
    var chain: Chain
    var gasLimit: int
    var minGasPrice: int
    var pending: Txs
    var queue: map<Addr, Txs>
    var managed: Option<map<Addr, nat>>

    ghost function View(): Pool
      reads this
    {
      Pool(chain, gasLimit, minGasPrice, pending, queue, managed)
    }

    constructor (c: Chain, limit: int)
      ensures View() == Pool(c, limit, 0, map[], map[], None)
    {
      chain, gasLimit, minGasPrice := c, limit, 0;
      pending, queue, managed := map[], map[], None;
    }

    function GuessedNonce(a: Addr): nat
      reads this
      requires managed.Some?
    {
      if a in managed.value then managed.value[a] else Nonce(chain, a)
    }

    /** `addTx` on a pool that has a state. */
    method AddTx(a: Addr, tx: Tx)
      requires managed.Some?
      modifies `pending, `managed
      ensures tx.hash in old(pending) ==> pending == old(pending) && managed == old(managed)
      ensures tx.hash !in old(pending) ==>
                pending == old(pending)[tx.hash := tx] && managed == Some(old(managed).value[a := tx.nonce + 1])
    {
      if tx.hash !in pending {
        pending := pending[tx.hash := tx];
        managed := Some(managed.value[a := tx.nonce + 1]);
      }
    }

    /** The promotion loop of `checkQueue` for one sender. */
    method Promote(a: Addr, promote: seq<Tx>, ghost p: Pool) returns (i: nat, ghost g: nat)
      requires managed.Some? && p.managed.Some? && Filed(p.pending, p.queue)
      requires Lists(promote, LiveOf(p.chain, a, Of(p.queue, a))) && InLoop(p, View(), a, promote, 0, Guess(p, a))
      modifies `pending, `queue, `managed
      ensures managed.Some? && InLoop(p, View(), a, promote, i, g) && (i < |promote| ==> promote[i].nonce > g)
    {
      var guessed := GuessedNonce(a);
      i := 0;
      while i < |promote| && promote[i].nonce <= guessed
        invariant managed.Some? && i <= |promote| && InLoop(p, View(), a, promote, i, guessed)
      {
        LoopStep(p, View(), a, promote, i, guessed);
        PromoteEntry(a, promote[i]);
        if promote[i].nonce == guessed {
          guessed := guessed + 1;
        }
        i := i + 1;
      }
      g := guessed;
    }

    method PromoteEntry(a: Addr, tx: Tx)
      requires managed.Some? && tx.hash !in pending
      modifies `pending, `queue, `managed
      ensures View() == PromoteOne(old(View()), a, tx)
    {
      AddTx(a, tx);
      queue := queue[a := Of(queue, a) - {tx.hash}];
    }

    /** Drops dead transactions of the sender and lists the rest by nonce. */
    method ListSender(a: Addr) returns (promote: seq<Tx>)
      requires managed.Some? && a in queue && Filed(pending, queue)
      modifies `queue
      ensures View() == old(View()).(queue := old(queue)[a := LiveOf(chain, a, Of(old(queue), a))])
      ensures Sorted(promote) && Lists(promote, LiveOf(chain, a, Of(old(queue), a)))
    {
      assert forall h: Hash :: h in queue[a] ==> Holds(queue, a, h);
      var live, unsorted := Sieve(chain, a, queue[a]);
      queue := queue[a := live];
      promote := SortByNonce(unsorted);
      Reordered(unsorted, promote, live);
    }

    /** `checkQueue` for one sender. */
    method CheckSender(a: Addr)
      requires managed.Some? && a in queue && Filed(pending, queue)
      modifies `pending, `queue, `managed
      ensures managed.Some? && CheckedSender(old(View()), View(), a)
    {
      ghost var p := View();
      var promote := ListSender(a);
      LoopStarts(p, View(), a, promote);
      ghost var g;
      var i;
      i, g := Promote(a, promote, p);
      ghost var r := View();
      var left := promote[i..];
      ghost var kept := CapSender(a, left);
      PromotionEnds(p, r, View(), a, promote, i, g, left, kept);
    }

    method CapSender(a: Addr, waiting: seq<Tx>) returns (ghost kept: Txs)
      requires Lists(waiting, Of(queue, a))
      modifies `queue
      ensures Lists(waiting[..Least(|waiting|, MAX_QUEUED)], kept)
      ensures View() == old(View()).(queue := if kept == map[] then old(queue) - {a} else old(queue)[a := kept])
    {
      var left := Cap(Of(queue, a), waiting);
      queue := if left == map[] then queue - {a} else queue[a := left];
      kept := left;
    }

    /** Deletes all but the first 64 of the listed transactions. */
    static method Cap(txs: Txs, waiting: seq<Tx>) returns (kept: Txs)
      requires Lists(waiting, txs)
      ensures Lists(waiting[..Least(|waiting|, MAX_QUEUED)], kept)
    {
      kept := txs;
      var n := |waiting|;
      assert waiting[..n] == waiting;
      while n > MAX_QUEUED
        invariant Least(|waiting|, MAX_QUEUED) <= n <= |waiting|
        invariant Lists(waiting[..n], kept)
      {
        CutLast(waiting, n, kept);
        kept := kept - {waiting[n - 1].hash};
        n := n - 1;
      }
    }

    /** `checkQueue` on a pool that has a state. */
    method CheckAll()
      requires managed.Some? && Filed(pending, queue)
      modifies `pending, `queue, `managed
      ensures managed.Some? && Checked(old(View()), View())
    {
      ghost var p := View();
      var todo := queue.Keys;
      CheckingStarts(p);
      while todo != {}
        invariant managed.Some? && Checking(p, View(), todo)
        decreases todo
      {
        var a :| a in todo;
        ghost var r := View();
        assert Untouched(p, r, a);
        CheckSender(a);
        CheckingStep(p, r, View(), todo, a);
        todo := todo - {a};
      }
      CheckingEnds(p, View());
    }

    /** The first loop of `validatePool`. */
    method Sift() returns (gaps: map<Addr, nat>)
      requires Filed(pending, queue)
      modifies `pending
      ensures Sifted(old(View()), pending, gaps, {})
    {
      ghost var p := View();
      var all := pending;
      gaps := map[];
      var rest := all.Keys;
      while rest != {}
        invariant all == p.pending && chain == p.chain && Sifted(p, pending, gaps, rest)
        decreases rest
      {
        var h :| h in rest;
        var tx := all[h];
        var a := tx.sender.value;
        ghost var gaps0 := gaps;
        var past := Nonce(chain, a) > tx.nonce;
        ghost var pending0 := pending;
        if past || Balance(chain, a) < tx.cost {
          pending := pending - {h};
          if !past && !(a in gaps && gaps[a] <= tx.nonce) {
            gaps := gaps[a := tx.nonce];
          }
        }
        SiftStep(p, pending0, gaps0, rest, h, a, gaps);
        rest := rest - {h};
      }
    }

    /** The second loop of `validatePool`. */
    method Postpone(gaps: map<Addr, nat>, ghost p: Pool)
      requires Filed(p.pending, p.queue) && queue == p.queue && Moved(p, gaps, pending, queue, pending.Keys)
      modifies `pending, `queue
      ensures Moved(p, gaps, pending, queue, {})
    {
      var rest := pending.Keys;
      while rest != {}
        invariant rest <= pending.Keys && Moved(p, gaps, pending, queue, rest)
        decreases rest
      {
        var h :| h in rest;
        var tx := pending[h];
        var a := tx.sender.value;
        if a in gaps && tx.nonce >= gaps[a] {
          MoveStep(p, gaps, pending, queue, rest, h, a);
          queue := queue[a := Of(queue, a)[h := tx]];
          pending := pending - {h};
        }
        rest := rest - {h};
      }
    }

    method PostponeGaps(gaps: map<Addr, nat>, ghost p: Pool)
      requires Filed(p.pending, p.queue) && View() == p.(pending := pending) && Sifted(p, pending, gaps, {})
      modifies `pending, `queue
      ensures Validated(p, View())
    {
      ghost var mid := pending;
      SiftedMoved(p, mid, gaps);
      if gaps != map[] {
        Postpone(gaps, p);
      }
      MovedIsValidated(p, mid, gaps, View());
    }

    /** `validatePool`. */
    method ValidatePool()
      requires Filed(pending, queue)
      modifies `pending, `queue
      ensures Validated(old(View()), View())
    {
      ghost var p := View();
      var gaps := Sift();
      PostponeGaps(gaps, p);
    }

    /** The loop of `resetState` that bases the guesses on what is pending. */
    method Rebase()
      requires Filed(pending, queue)
      modifies `managed
      ensures Rebased(old(View()), View())
    {
      ghost var p := View();
      managed := Some(map[]);
      RebasingStarts(View());
      var rest := pending.Keys;
      while rest != {}
        invariant View() == p.(managed := managed) && managed.Some? && rest <= pending.Keys
        invariant Rebasing(View(), rest)
        decreases rest
      {
        var h :| h in rest;
        var tx := pending[h];
        var a := tx.sender.value;
        ghost var q := View();
        if GuessedNonce(a) <= tx.nonce {
          managed := Some(managed.value[a := tx.nonce + 1]);
        }
        RebaseStep(q, View(), rest, h, a, tx.nonce);
        rest := rest - {h};
      }
      RebasingEnds(p, View());
    }

    /** `resetState`, with the chain state at hand. */
    method ResetState()
      requires Filed(pending, queue)
      modifies `pending, `queue, `managed
      ensures Reset(old(View()), View())
      decreases 1
    {
      ghost var p := View();
      ValidatePool();
      ghost var v := View();
      ValidatedFiled(p, v);
      Rebase();
      ghost var r := View();
      CheckQueue();
      assert Validated(p, v) && Rebased(v, r) && Checked(r, View());
    }

    /** `checkQueue`. */
    method CheckQueue()
      requires Filed(pending, queue)
      modifies `pending, `queue, `managed
      ensures CheckedQueue(old(View()), View())
      decreases if managed.None? then 2 else 0
    {
      ghost var p := View();
      if managed.None? {
        ResetState();
        ResetFiled(p, View());
      }
      CheckAll();
    }

    static lemma ResetFiled(p: Pool, q: Pool)
      requires Filed(p.pending, p.queue) && Reset(p, q)
      ensures Filed(q.pending, q.queue) && q.managed.Some?
    {
      var v, r :| Validated(p, v) && Rebased(v, r) && Checked(r, q);
      ValidatedFiled(p, v);
      CheckedFiled(r, q);
    }

    /** `add`: validate and queue. */
    method AddToQueue(tx: Tx) returns (err: Option<AddError>)
      modifies `queue
      ensures err == Reject(old(View()), tx) && View() == AddOne(old(View()), tx)
    {
      err := Validate(tx);
      if err.None? {
        var a := tx.sender.value;
        queue := queue[a := Of(queue, a)[tx.hash := tx]];
      }
    }

    /** The known-transaction check of `add` and the checks of `validateTx`. */
    method Validate(tx: Tx) returns (err: Option<AddError>)
      ensures err == Reject(View(), tx)
    {
      if tx.hash in pending { return Some(Known); }
      if minGasPrice > tx.price { return Some(Cheap); }
      if tx.sender.None? { return Some(InvalidSender); }
      var from := tx.sender.value;
      if from !in chain { return Some(NonExistentAccount); }
      if Nonce(chain, from) > tx.nonce { return Some(LowNonce); }
      if gasLimit < tx.gas { return Some(GasLimitExceeded); }
      if tx.amount < 0 { return Some(NegativeValue); }
      if Balance(chain, from) < tx.cost { return Some(InsufficientFunds); }
      if tx.gas < tx.intrinsicGas { return Some(IntrinsicGasTooLow); }
      return None;
    }

    /** `Add`. */
    method Add(tx: Tx) returns (err: Option<AddError>)
      requires TxPool.Inv(View()) && Consistent(View(), tx)
      modifies this
      ensures err == Reject(old(View()), tx)
      ensures err.None? <==> tx.hash !in old(pending) && Admissible(old(View()), tx)
      ensures err.Some? ==> Tells(old(View()), tx, err.value) && View() == old(View())
      ensures Step(old(View()), Event.Add(tx), View()) && TxPool.Inv(View())
    {
      ghost var p := View();
      RejectTells(p, tx);
      AddOneKeeps(p, tx);
      err := AddToQueue(tx);
      if err.None? {
        CheckQueue();
      }
      StepKeeps(p, Event.Add(tx), View());
    }

    /** `AddTransactions`. */
    method AddTransactions(txs: seq<Tx>)
      requires TxPool.Inv(View()) && AllConsistent(View(), txs)
      modifies this
      ensures Step(old(View()), Event.AddTransactions(txs), View()) && TxPool.Inv(View())
    {
      ghost var p := View();
      var i := 0;
      while i < |txs|
        invariant i <= |txs| && View() == AddEach(p, txs[..i])
      {
        assert txs[..i + 1][..i] == txs[..i];
        var err := AddToQueue(txs[i]);
        i := i + 1;
      }
      assert txs[..i] == txs;
      AddEachKeeps(p, txs);
      CheckQueue();
      StepKeeps(p, Event.AddTransactions(txs), View());
    }

    /** `GetTransactions`. */
    method GetTransactions() returns (txs: seq<Tx>)
      requires TxPool.Inv(View())
      modifies this
      ensures Step(old(View()), Event.GetTransactions, View()) && TxPool.Inv(View())
      ensures Lists(txs, pending)
    {
      ghost var p := View();
      CheckQueue();
      ghost var r := View();
      CheckedQueueKeeps(p, r);
      ValidatePool();
      StepKeeps(p, Event.GetTransactions, View());
      txs := ToList(pending);
    }

    /** The listed values of a map, in no particular order. */
    static method ToList(m: Txs) returns (s: seq<Tx>)
      requires forall h: Hash :: h in m ==> m[h].hash == h
      ensures Lists(s, m)
    {
      s := [];
      var rest := m.Keys;
      ghost var seen: Txs := map[];
      while rest != {}
        invariant rest <= m.Keys && Lists(s, seen)
        invariant forall h: Hash :: h in seen <==> h in m && h !in rest
        invariant forall h: Hash :: h in seen ==> seen[h] == m[h]
        decreases rest
      {
        var h :| h in rest;
        ListsAppend(s, seen, m[h]);
        s := s + [m[h]];
        seen := seen[h := m[h]];
        rest := rest - {h};
      }
      assert seen == m;
    }

    /** A new chain head, handled by the event loop with `resetState`. */
    method NewHead(c: Chain, limit: int)
      requires TxPool.Inv(View()) && forall a: Addr :: Nonce(chain, a) <= Nonce(c, a)
      modifies this
      ensures Step(old(View()), Event.NewHead(c, limit), View()) && TxPool.Inv(View())
    {
      ghost var p := View();
      chain, gasLimit := c, limit;
      ResetState();
      StepKeeps(p, Event.NewHead(c, limit), View());
    }

    /** A new least gas price, handled by the event loop. */
    method GasPrice(price: int)
      requires TxPool.Inv(View())
      modifies this
      ensures Step(old(View()), Event.GasPrice(price), View()) && TxPool.Inv(View())
    {
      ghost var p := View();
      minGasPrice := price;
      StepKeeps(p, Event.GasPrice(price), View());
    }
  }

  lemma ListsInit(s: seq<Tx>, m: Txs)
    requires Lists(s, m) && s != []
    ensures Lists(s[..|s| - 1], m - {s[|s| - 1].hash})
  {
    var n := |s| - 1;
    forall h: Hash | h in m - {s[n].hash} ensures Listed(s[..n], h) {
      assert Listed(s, h);
      var i :| 0 <= i < |s| && s[i].hash == h;
      assert s[..n][i].hash == h;
    }
  }

  lemma CutLast(s: seq<Tx>, n: nat, m: Txs)
    requires 0 < n <= |s| && Lists(s[..n], m)
    ensures Lists(s[..n - 1], m - {s[n - 1].hash})
  {
    ListsInit(s[..n], m);
    assert s[..n][..n - 1] == s[..n - 1];
  }
}
