/** Headers as the chain database stores them, and the path that leads from a
    stored header back to genesis. A hash is an abstract identity: the database
    key under which a header is found is that header's own hash. */
module ChainStore {

  type Hash = nat

  datatype Header = Header(hash: Hash, parent: Hash, number: nat, difficulty: nat)

  type Headers = map<Hash, Header>

  /** Every header is found under its own hash. */
  ghost predicate Keyed(hs: Headers) {
    forall h :: h in hs ==> hs[h].hash == h
  }

  /** `h` leads back to genesis `g` through stored parents, one number at a time. */
  ghost predicate Connected(hs: Headers, g: Header, h: Header)
    decreases h.number
  {
    h == g ||
    (h.parent in hs && hs[h.parent].number + 1 == h.number && Connected(hs, g, hs[h.parent]))
  }

  /** The ancestors of `h`, from genesis up to `h` itself, indexed by block number. */
  ghost function Path(hs: Headers, g: Header, h: Header): (p: seq<Header>)
    requires g.number == 0 && Connected(hs, g, h)
    ensures |p| == h.number + 1 && p[0] == g && p[h.number] == h
    decreases h.number
  {
    if h == g then [g] else Path(hs, g, hs[h.parent]) + [h]
  }

  /** The sum of the difficulties of a sequence of headers. */
  ghost function TotalDifficulty(p: seq<Header>): nat {
    if p == [] then 0 else TotalDifficulty(p[..|p| - 1]) + p[|p| - 1].difficulty
  }

  /** What one position of a path says: the number is the position, the parent
      is the previous header, everything below the tip is stored, and the path
      of that header is the corresponding prefix. */
  lemma {:induction false} PathAt(hs: Headers, g: Header, h: Header, n: nat)
    requires Keyed(hs) && g.number == 0 && Connected(hs, g, h) && n <= h.number
    ensures var p := Path(hs, g, h);
            && p[n].number == n
            && Connected(hs, g, p[n])
            && Path(hs, g, p[n]) == p[..n + 1]
            && (n < h.number ==> p[n].hash in hs && hs[p[n].hash] == p[n] && p[n + 1].parent == p[n].hash)
    decreases h.number
  {
    var p := Path(hs, g, h);
    if n == h.number {
      assert p == p[..n + 1];
    } else {
      var q := Path(hs, g, hs[h.parent]);
      PathAt(hs, g, hs[h.parent], n);
      assert p == q + [h];
      assert p[..n + 1] == q[..n + 1];
      assert n < h.number - 1 ==> p[n + 1] == q[n + 1];
    }
  }

  /** A path goes on through a child. */
  lemma OneUp(hs: Headers, g: Header, h: Header, q: Header)
    requires g.number == 0 && Connected(hs, g, q) && h.parent in hs && hs[h.parent] == q && h.number == q.number + 1
    ensures Connected(hs, g, h) && Path(hs, g, h) == Path(hs, g, q) + [h]
  {
  }

  /** Storing more headers changes no existing path. */
  lemma {:induction false} PathGrows(hs: Headers, hs': Headers, g: Header, h: Header)
    requires g.number == 0 && Connected(hs, g, h)
    requires forall k :: k in hs ==> k in hs' && hs'[k] == hs[k]
    ensures Connected(hs', g, h) && Path(hs', g, h) == Path(hs, g, h)
    decreases h.number
  {
    if h != g {
      PathGrows(hs, hs', g, hs[h.parent]);
    }
  }

  /** Two paths that meet at a number agree everywhere below it. */
  lemma PathsMerge(hs: Headers, g: Header, a: Header, b: Header, n: nat)
    requires Keyed(hs) && g.number == 0 && Connected(hs, g, a) && Connected(hs, g, b)
    requires n <= a.number && n <= b.number && Path(hs, g, a)[n] == Path(hs, g, b)[n]
    ensures Path(hs, g, a)[..n + 1] == Path(hs, g, b)[..n + 1]
  {
    PathAt(hs, g, a, n);
    PathAt(hs, g, b, n);
  }

  lemma PathsAgree(hs: Headers, g: Header, a: Header, b: Header, n: nat, k: nat)
    requires Keyed(hs) && g.number == 0 && Connected(hs, g, a) && Connected(hs, g, b)
    requires k <= n <= a.number && n <= b.number && Path(hs, g, a)[n] == Path(hs, g, b)[n]
    ensures Path(hs, g, a)[k] == Path(hs, g, b)[k]
  {
    var p, q := Path(hs, g, a), Path(hs, g, b);
    assert p[..n + 1] == q[..n + 1] by {
      PathsMerge(hs, g, a, b, n);
    }
    SameInit(p, q, n + 1, k);
  }

  lemma SameInit(p: seq<Header>, q: seq<Header>, n: nat, k: nat)
    requires k < n <= |p| && n <= |q| && p[..n] == q[..n]
    ensures p[k] == q[k]
  {
    assert p[..n][k] == q[..n][k];
  }

  /** The number of leading positions two paths have in common. */
  ghost function Fork(p: seq<Header>, q: seq<Header>): (k: nat)
    ensures k <= |p| && k <= |q| && p[..k] == q[..k]
    ensures k < |p| && k < |q| ==> p[k] != q[k]
  {
    if p == [] || q == [] || p[0] != q[0] then 0 else
      var r := Fork(p[1..], q[1..]);
      assert p[..r + 1] == [p[0]] + p[1..][..r];
      assert q[..r + 1] == [q[0]] + q[1..][..r];
      r + 1
  }

  lemma ForkUnique(p: seq<Header>, q: seq<Header>, k: nat)
    requires k <= |p| && k <= |q| && p[..k] == q[..k]
    requires k < |p| && k < |q| ==> p[k] != q[k]
    ensures Fork(p, q) == k
  {
    assert forall i :: 0 <= i < k ==> p[i] == p[..k][i] == q[..k][i] == q[i];
    assert forall i :: 0 <= i < Fork(p, q) ==> p[i] == p[..Fork(p, q)][i] == q[..Fork(p, q)][i] == q[i];
  }
}
