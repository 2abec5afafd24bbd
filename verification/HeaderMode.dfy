/** The header-only chain of core/blockchain.go: `writeHeader` and `SetHead`.
    The headers in play come from one world `w` in which a hash names one
    header, so that a header dropped and seen again is the same header. */
module HeaderMode {
  import opened Wrappers
  import opened ChainStore

  datatype State = State(
    headers: Headers,
    bodies: set<Hash>,
    td: map<Hash, nat>,
    canon: map<nat, Hash>,
    head: Header,
    block: Header,
    fast: Header)

  /** `Panicked`: a parent on the walk to the canonical chain is not stored and
      the code dereferences nil. */
  datatype Outcome = ParentUnknown | Written | Panicked

  /** All headers there are: each leads back to genesis, and all but genesis
      carry difficulty. */
  ghost predicate World(w: Headers, g: Header) {
    && Keyed(w) && g.number == 0 && g.hash in w && w[g.hash] == g && g.parent !in w
    && (forall h {:trigger In(w, h)} :: In(w, h) ==> Connected(w, g, h) && (h == g || h.difficulty > 0))
  }

  predicate In(w: Headers, h: Header) {
    h.hash in w && w[h.hash] == h
  }

  /** The number-to-hash index of a path. */
  ghost function IndexOf(p: seq<Header>): map<nat, Hash> {
    map n: nat | n < |p| :: p[n].hash
  }

  /** The index is exactly the ancestor path of the head header: nothing is
      missing below it and nothing is left above it. Every stored total
      difficulty is the sum of difficulties back to genesis. */
  ghost predicate Inv(w: Headers, g: Header, s: State) {
    && World(w, g)
    && In(s.headers, g) && In(s.headers, s.head)
    && (forall k {:trigger k in s.headers} :: k in s.headers ==> k in w && s.headers[k] == w[k])
    && s.td.Keys == s.headers.Keys
    && (forall h {:trigger In(w, h)} :: In(w, h) && h.hash in s.td ==> s.td[h.hash] == TotalDifficulty(Path(w, g, h)))
    && Connected(s.headers, g, s.head)
    && s.canon == IndexOf(Path(s.headers, g, s.head))
  }

  /** No stored header outweighs the head. */
  ghost predicate Heaviest(s: State) {
    s.head.hash in s.td && forall h :: h in s.td ==> s.td[h] <= s.td[s.head.hash]
  }

  /** Every stored header still has all its ancestors. */
  ghost predicate NoOrphans(g: Header, s: State) {
    forall h {:trigger In(s.headers, h)} :: In(s.headers, h) ==> Connected(s.headers, g, h)
  }

  // ---------- writeHeader ----------

  predicate Heavier(s: State, h: Header)
    requires h.parent in s.td && s.head.hash in s.td
  {
    s.td[h.parent] + h.difficulty > s.td[s.head.hash]
  }

  /** `writeHeader`. A heavier header re-routes the index to its own path. A call
      that panics leaves part of the index rewritten; the state given with it is
      the one before the call. */
  ghost function WriteHeader(w: Headers, g: Header, s: State, h: Header): (r: (State, Outcome))
    requires Inv(w, g, s)
  {
    if h.parent !in s.td then (s, ParentUnknown)
    else if Heavier(s, h) && !Connected(s.headers, g, h) then (s, Panicked)
    else
      var s1 := if Heavier(s, h) then s.(canon := IndexOf(Path(s.headers, g, h)), head := h) else s;
      (s1.(td := s.td[h.hash := s.td[h.parent] + h.difficulty], headers := s.headers[h.hash := h]), Written)
  }

  lemma WorldAt(w: Headers, g: Header, h: Header)
    requires World(w, g) && In(w, h)
    ensures Connected(w, g, h) && (h == g || h.difficulty > 0)
  {
  }

  /** The total difficulty of a header is its parent's plus its own. */
  lemma TdStep(w: Headers, g: Header, s: State, h: Header)
    requires Inv(w, g, s) && In(w, h) && h.parent in s.td
    ensures In(w, s.headers[h.parent]) && h.number == s.headers[h.parent].number + 1
    ensures Connected(w, g, h)
    ensures s.td[h.parent] + h.difficulty == TotalDifficulty(Path(w, g, h))
  {
    assert h.parent in s.headers;
    var q := w[h.parent];
    WorldAt(w, g, h);
    assert q.hash == h.parent && In(w, q) && s.td[q.hash] == TotalDifficulty(Path(w, g, q));
    var p := Path(w, g, h);
    assert p == Path(w, g, q) + [h];
    assert p[..|p| - 1] == Path(w, g, q);
  }

  /** Storing a header of the world disturbs no path. */
  lemma Kept(w: Headers, g: Header, s: State, h: Header, x: Header)
    requires Inv(w, g, s) && In(w, h) && Connected(s.headers, g, x)
    ensures Connected(s.headers[h.hash := h], g, x)
    ensures Path(s.headers[h.hash := h], g, x) == Path(s.headers, g, x)
  {
    PathGrows(s.headers, s.headers[h.hash := h], g, x);
  }

  /** `writeHeader` keeps the index the exact ancestor path of the head, moves
      the head exactly to a heavier header, and dereferences nil exactly when a
      heavier header has lost an ancestor. */
  lemma WriteHeaderKeeps(w: Headers, g: Header, s: State, h: Header)
    requires Inv(w, g, s) && In(w, h)
    ensures WriteHeader(w, g, s, h).1 == ParentUnknown <==> h.parent !in s.headers
    ensures WriteHeader(w, g, s, h).1 == Panicked <==>
            h.parent in s.headers && Heavier(s, h) && !Connected(s.headers, g, s.headers[h.parent])
    ensures WriteHeader(w, g, s, h).1 != Panicked ==> Inv(w, g, WriteHeader(w, g, s, h).0)
    ensures WriteHeader(w, g, s, h).1 == Written ==>
            WriteHeader(w, g, s, h).0.head == if Heavier(s, h) then h else s.head
  {
    if h.parent in s.td {
      TdStep(w, g, s, h);
      if WriteHeader(w, g, s, h).1 == Written {
        Kept(w, g, s, h, WriteHeader(w, g, s, h).0.head);
      }
    }
  }

  /** The head moves exactly when the sum of difficulties is strictly higher. */
  lemma HeadMovesIff(w: Headers, g: Header, s: State, h: Header)
    requires Inv(w, g, s) && In(w, h) && WriteHeader(w, g, s, h).1 == Written
    ensures Connected(w, g, h) && Connected(w, g, s.head)
    ensures WriteHeader(w, g, s, h).0.head ==
            if TotalDifficulty(Path(w, g, h)) > TotalDifficulty(Path(w, g, s.head)) then h else s.head
  {
    TdStep(w, g, s, h);
    assert s.head.hash in s.headers;
    assert In(w, s.head);
  }

  /** As long as only headers are written, no ancestor is ever lost and the
      head is heaviest. */
  lemma WriteHeaderHeaviest(w: Headers, g: Header, s: State, h: Header)
    requires Inv(w, g, s) && In(w, h) && Heaviest(s) && NoOrphans(g, s)
    ensures WriteHeader(w, g, s, h).1 != Panicked
    ensures Heaviest(WriteHeader(w, g, s, h).0) && NoOrphans(g, WriteHeader(w, g, s, h).0)
  {
    if h.parent in s.td {
      TdStep(w, g, s, h);
      assert In(s.headers, s.headers[h.parent]);
      assert Connected(s.headers, g, h);
      var s' := WriteHeader(w, g, s, h).0;
      forall x | In(s'.headers, x) ensures Connected(s'.headers, g, x) {
        assert x == h || In(s.headers, x);
        Kept(w, g, s, h, x);
      }
    }
  }

  // ---------- SetHead ----------

  /** A head that is a stored block on the head header's path. */
  ghost predicate OnPath(g: Header, s: State, b: Header)
    requires g.number == 0 && Connected(s.headers, g, s.head)
  {
    b.number <= s.head.number && Path(s.headers, g, s.head)[b.number] == b && b.hash in s.bodies
  }

  ghost predicate HeadsOnPath(g: Header, s: State)
    requires g.number == 0 && Connected(s.headers, g, s.head)
  {
    OnPath(g, s, s.block) && OnPath(g, s, s.fast) && g.hash in s.bodies
  }

  /** The walk of a block head from position `k` of the path down to number `n`:
      each step needs the parent's body, and `None` is a missing one. */
  ghost function Walk(bodies: set<Hash>, p: seq<Header>, k: nat, n: nat): Option<Header>
    requires k < |p|
  {
    if k <= n then Some(p[k])
    else if p[k - 1].hash in bodies then Walk(bodies, p, k - 1, n)
    else None
  }

  /** Where rewinding a block head ends; without a block it is genesis. */
  ghost function Rewound(g: Header, bodies: set<Hash>, p: seq<Header>, b: Header, n: nat): (r: Header)
    requires b.number < |p|
  {
    var found := Walk(bodies, p, b.number, n);
    if found.Some? then found.value else g
  }

  /** The walk ends at the number asked for, or where it started if that is lower,
      unless a body on the way is missing. */
  lemma {:induction false} WalkEnds(bodies: set<Hash>, p: seq<Header>, k: nat, n: nat)
    requires k < |p|
    ensures Walk(bodies, p, k, n) ==
            if Stored(bodies, p, n, k) then Some(p[if k <= n then k else n]) else None
  {
    if k > n && p[k - 1].hash in bodies {
      WalkEnds(bodies, p, k - 1, n);
      assert Stored(bodies, p, n, k - 1) ==> Stored(bodies, p, n, k);
    }
  }

  ghost predicate Stored(bodies: set<Hash>, p: seq<Header>, from: nat, to: nat)
    requires to <= |p|
  {
    forall m :: from <= m < to ==> p[m].hash in bodies
  }

  /** `SetHead(n)`. */
  ghost function SetHead(w: Headers, g: Header, s: State, n: nat): State
    requires Inv(w, g, s) && HeadsOnPath(g, s)
  {
    var p := Path(s.headers, g, s.head);
    var keep := if s.head.number <= n then s.head.number else n;
    var drop := Above(p, keep);
    s.(headers := s.headers - drop, bodies := s.bodies - drop, td := s.td - drop,
       canon := IndexOf(p[..keep + 1]), head := p[keep],
       block := Rewound(g, s.bodies, p, s.block, n), fast := Rewound(g, s.bodies, p, s.fast, n))
  }

  /** Deleting headers above a path's tip leaves that path. */
  lemma {:induction false} PathShrinks(hs: Headers, hs': Headers, g: Header, h: Header)
    requires g.number == 0 && Connected(hs, g, h) && Keyed(hs)
    requires forall k :: k in hs && hs[k].number < h.number ==> k in hs' && hs'[k] == hs[k]
    ensures Connected(hs', g, h) && Path(hs', g, h) == Path(hs, g, h)
    decreases h.number
  {
    if h != g {
      PathShrinks(hs, hs', g, hs[h.parent]);
    }
  }

  lemma StoredPath(w: Headers, g: Header, s: State)
    requires Inv(w, g, s)
    ensures var p := Path(s.headers, g, s.head);
            forall m :: 0 <= m < |p| ==> p[m].number == m && In(s.headers, p[m])
  {
    var p := Path(s.headers, g, s.head);
    forall m | 0 <= m < |p| ensures p[m].number == m && In(s.headers, p[m]) {
      PathAt(s.headers, g, s.head, m);
    }
  }

  /** The hashes of the positions above `keep`. */
  ghost function Above(p: seq<Header>, keep: nat): set<Hash> {
    set m | keep < m < |p| :: p[m].hash
  }

  /** What goes has a number above `keep`. */
  lemma GoneIsAbove(hs: Headers, p: seq<Header>, keep: nat, k: Hash)
    requires Keyed(hs) && k in hs && hs[k].number <= keep
    requires forall m :: 0 <= m < |p| ==> p[m].number == m && In(hs, p[m])
    ensures k !in Above(p, keep)
  {
    forall m | keep < m < |p|
      ensures p[m].hash != k
    {
      assert In(hs, p[m]);
    }
  }

  /** Cutting a stored path at `keep` leaves the lower part connected. */
  lemma CutKeeps(hs: Headers, g: Header, h: Header, keep: nat, hs': Headers)
    requires Keyed(hs) && g.number == 0 && Connected(hs, g, h) && keep <= h.number
    requires var p := Path(hs, g, h);
             && (forall m :: 0 <= m < |p| ==> p[m].number == m && In(hs, p[m]))
             && hs' == hs - Above(p, keep)
    ensures var p := Path(hs, g, h);
            && (forall m :: 0 <= m <= keep ==> In(hs', p[m]))
            && Connected(hs', g, p[keep]) && Path(hs', g, p[keep]) == p[..keep + 1]
  {
    var p := Path(hs, g, h);
    forall k | k in hs && hs[k].number <= keep
      ensures k in hs' && hs'[k] == hs[k]
    {
      GoneIsAbove(hs, p, keep, k);
    }
    PathAt(hs, g, h, keep);
    PathShrinks(hs, hs', g, p[keep]);
  }

  /** A rewound block head lands on the path, at or below `n`. */
  lemma RewoundOnPath(g: Header, bodies: set<Hash>, p: seq<Header>, b: Header, n: nat)
    requires b.number < |p| && p[b.number] == b && b.hash in bodies && g.hash in bodies && p[0] == g
    requires forall m :: 0 <= m < |p| ==> p[m].number == m
    ensures var r := Rewound(g, bodies, p, b, n);
            r.number <= n && r.number < |p| && p[r.number] == r && r.hash in bodies
  {
    WalkEnds(bodies, p, b.number, n);
  }

  /** `SetHead(n)` takes an exact index to an exact index of a head at number
      min(old, n), whose entries are the old ones. */
  lemma SetHeadKeeps(w: Headers, g: Header, s: State, n: nat)
    requires Inv(w, g, s) && HeadsOnPath(g, s)
    ensures var s' := SetHead(w, g, s, n);
            && Inv(w, g, s')
            && s'.head.number == (if s.head.number <= n then s.head.number else n)
            && (forall m :: m in s'.canon ==> s'.canon[m] in s'.headers && m in s.canon && s.canon[m] == s'.canon[m])
  {
    var s' := SetHead(w, g, s, n);
    var p := Path(s.headers, g, s.head);
    var keep := if s.head.number <= n then s.head.number else n;
    SetHeadCut(w, g, s, s', p, keep);
  }

  lemma SetHeadCut(w: Headers, g: Header, s: State, s': State, p: seq<Header>, keep: nat)
    requires Inv(w, g, s) && p == Path(s.headers, g, s.head) && keep < |p|
    requires s'.headers == s.headers - Above(p, keep) && s'.td == s.td - Above(p, keep)
    requires s'.head == p[keep] && s'.canon == IndexOf(p[..keep + 1])
    ensures Inv(w, g, s') && s'.head.number == keep
    ensures forall m :: m in s'.canon ==> s'.canon[m] in s'.headers && m in s.canon && s.canon[m] == s'.canon[m]
  {
    StoredPath(w, g, s);
    CutKeeps(s.headers, g, s.head, keep, s'.headers);
    CutInv(w, g, s, s', p, keep);
    CutIndex(s'.headers, p, keep, s.canon, s'.canon);
  }

  lemma CutInv(w: Headers, g: Header, s: State, s': State, p: seq<Header>, keep: nat)
    requires Inv(w, g, s) && p == Path(s.headers, g, s.head) && keep < |p|
    requires s'.headers == s.headers - Above(p, keep) && s'.td == s.td - Above(p, keep)
    requires s'.head == p[keep] && s'.canon == IndexOf(p[..keep + 1])
    requires In(s'.headers, p[0]) && In(s'.headers, p[keep])
    requires Connected(s'.headers, g, p[keep]) && Path(s'.headers, g, p[keep]) == p[..keep + 1]
    ensures Inv(w, g, s')
  {
    assert p[0] == g;
    assert s'.td.Keys == s'.headers.Keys;
    assert forall k :: k in s'.headers ==> k in s.headers && s'.headers[k] == s.headers[k];
    assert forall h {:trigger In(w, h)} :: In(w, h) && h.hash in s'.td ==> s'.td[h.hash] == TotalDifficulty(Path(w, g, h));
  }

  lemma CutIndex(hs': Headers, p: seq<Header>, keep: nat, whole: map<nat, Hash>, cut: map<nat, Hash>)
    requires keep < |p| && forall m :: 0 <= m <= keep ==> In(hs', p[m])
    requires whole == IndexOf(p) && cut == IndexOf(p[..keep + 1])
    ensures forall m :: m in cut ==> cut[m] in hs' && m in whole && whole[m] == cut[m]
  {
    forall m | m in cut
      ensures cut[m] in hs' && m in whole && whole[m] == cut[m]
    {
      assert p[..keep + 1][m] == p[m] && In(hs', p[m]);
    }
  }

  /** ... and leaves the block heads on the remaining path, at or below `n`. */
  lemma SetHeadHeads(w: Headers, g: Header, s: State, n: nat)
    requires Inv(w, g, s) && HeadsOnPath(g, s)
    ensures Inv(w, g, SetHead(w, g, s, n)) && HeadsOnPath(g, SetHead(w, g, s, n))
    ensures SetHead(w, g, s, n).block.number <= n && SetHead(w, g, s, n).fast.number <= n
  {
    SetHeadKeeps(w, g, s, n);
    HeadsStay(w, g, s, n, Path(s.headers, g, s.head), SetHead(w, g, s, n));
  }

  lemma HeadsStay(w: Headers, g: Header, s: State, n: nat, p: seq<Header>, s': State)
    requires Inv(w, g, s) && HeadsOnPath(g, s) && p == Path(s.headers, g, s.head) && s' == SetHead(w, g, s, n) && Inv(w, g, s')
    ensures HeadsOnPath(g, s') && s'.block.number <= n && s'.fast.number <= n
  {
    StoredPath(w, g, s);
    var keep := if s.head.number <= n then s.head.number else n;
    CutKeeps(s.headers, g, s.head, keep, s'.headers);
    RewoundOnPath(g, s.bodies, p, s.block, n);
    RewoundOnPath(g, s.bodies, p, s.fast, n);
  }

  /** A hash of the path above number `n`. */
  ghost predicate Gone(p: seq<Header>, n: nat, k: Hash) {
    exists m :: n < m < |p| && p[m].hash == k
  }

  /** What `SetHead(n)` deletes: header, body and total difficulty of exactly the
      headers of the old path above `n`. */
  lemma SetHeadDeletes(w: Headers, g: Header, s: State, n: nat, k: Hash)
    requires Inv(w, g, s) && HeadsOnPath(g, s)
    ensures var p, s' := Path(s.headers, g, s.head), SetHead(w, g, s, n);
            && (k in s'.headers <==> k in s.headers && !Gone(p, n, k)) && (k in s'.bodies <==> k in s.bodies && !Gone(p, n, k))
            && (k in s'.td <==> k in s.td && !Gone(p, n, k))
            && (k in s'.headers ==> s'.headers[k] == s.headers[k]) && (k in s'.td ==> s'.td[k] == s.td[k])
  {
    AboveIsGone(Path(s.headers, g, s.head), if s.head.number <= n then s.head.number else n, n, k);
  }

  lemma AboveIsGone(p: seq<Header>, keep: nat, n: nat, k: Hash)
    requires p != [] && keep == if |p| - 1 <= n then |p| - 1 else n
    ensures k in Above(p, keep) <==> Gone(p, n, k)
  {
  }

  /** Where the block heads land: at number `n`, or where they were if that is
      lower, when every body on the way down is stored; else at genesis. They land
      at genesis only if they were there, are asked to go there, or miss a body. */
  lemma SetHeadLands(w: Headers, g: Header, s: State, n: nat)
    requires Inv(w, g, s) && HeadsOnPath(g, s)
    ensures var p, s' := Path(s.headers, g, s.head), SetHead(w, g, s, n);
            && Lands(g, s.bodies, p, s.block, n, s'.block)
            && Lands(g, s.bodies, p, s.fast, n, s'.fast)
  {
    HeadsLand(w, g, s, n, Path(s.headers, g, s.head), SetHead(w, g, s, n));
  }

  lemma HeadsLand(w: Headers, g: Header, s: State, n: nat, p: seq<Header>, s': State)
    requires Inv(w, g, s) && HeadsOnPath(g, s) && p == Path(s.headers, g, s.head)
    requires s'.block == Rewound(g, s.bodies, p, s.block, n) && s'.fast == Rewound(g, s.bodies, p, s.fast, n)
    ensures Lands(g, s.bodies, p, s.block, n, s'.block) && Lands(g, s.bodies, p, s.fast, n, s'.fast)
  {
    StoredPath(w, g, s);
    RewoundLands(g, s.bodies, p, s.block, n);
    RewoundLands(g, s.bodies, p, s.fast, n);
  }

  ghost predicate Lands(g: Header, bodies: set<Hash>, p: seq<Header>, b: Header, n: nat, b': Header)
    requires b.number < |p|
  {
    && ((forall m :: n <= m < b.number ==> p[m].hash in bodies) ==> b' == p[if b.number <= n then b.number else n])
    && (b' == g <==> b == g || n == 0 || exists m :: n <= m < b.number && p[m].hash !in bodies)
  }

  lemma RewoundLands(g: Header, bodies: set<Hash>, p: seq<Header>, b: Header, n: nat)
    requires b.number < |p| && p[b.number] == b && p[0] == g
    requires forall m :: 0 <= m < |p| ==> p[m].number == m
    ensures Lands(g, bodies, p, b, n, Rewound(g, bodies, p, b, n))
  {
    WalkEnds(bodies, p, b.number, n);
    assert b == g <==> b.number == 0;
  }

  // ---------- whole runs ----------

  datatype Step = Write(h: Header) | Rewind(n: nat)

  /** Headers only: both block heads rest at genesis. */
  ghost predicate HeaderOnly(g: Header, s: State) {
    s.block == g && s.fast == g && g.hash in s.bodies
  }

  function Initial(g: Header): State {
    State(map[g.hash := g], {g.hash}, map[g.hash := g.difficulty], map[0 := g.hash], g, g, g)
  }

  ghost function Apply(w: Headers, g: Header, s: State, step: Step): (State, Outcome)
    requires Inv(w, g, s) && HeaderOnly(g, s)
  {
    match step
    case Write(h) => WriteHeader(w, g, s, h)
    case Rewind(n) => (SetHead(w, g, s, n), Written)
  }

  lemma ApplyKeeps(w: Headers, g: Header, s: State, step: Step)
    requires Inv(w, g, s) && HeaderOnly(g, s) && (step.Write? ==> In(w, step.h))
    ensures Apply(w, g, s, step).1 != Panicked ==> Inv(w, g, Apply(w, g, s, step).0) && HeaderOnly(g, Apply(w, g, s, step).0)
  {
    match step
    case Write(h) => WriteHeaderKeeps(w, g, s, h);
    case Rewind(n) => SetHeadKeeps(w, g, s, n);
  }

  ghost predicate FromWorld(w: Headers, steps: seq<Step>) {
    forall i :: 0 <= i < |steps| && steps[i].Write? ==> In(w, steps[i].h)
  }

  ghost function After(w: Headers, g: Header, s: State, steps: seq<Step>): (State, Outcome)
    requires Inv(w, g, s) && HeaderOnly(g, s) && FromWorld(w, steps)
    decreases |steps|
  {
    if steps == [] then (s, Written) else
      ApplyKeeps(w, g, s, steps[0]);
      var (s1, outcome) := Apply(w, g, s, steps[0]);
      if outcome == Panicked then (s1, Panicked) else After(w, g, s1, steps[1..])
  }

  /** Over every run of header writes and rewinds that does not panic, the index
      is exactly the ancestor path of the head header. */
  lemma {:induction false} RunKeepsIndex(w: Headers, g: Header, s: State, steps: seq<Step>)
    requires Inv(w, g, s) && HeaderOnly(g, s) && FromWorld(w, steps)
    ensures After(w, g, s, steps).1 != Panicked ==> Inv(w, g, After(w, g, s, steps).0)
    decreases |steps|
  {
    if steps != [] {
      ApplyKeeps(w, g, s, steps[0]);
      var (s1, outcome) := Apply(w, g, s, steps[0]);
      if outcome != Panicked {
        RunKeepsIndex(w, g, s1, steps[1..]);
      }
    }
  }

  /** Over every run of header writes alone, nothing panics, the index is exactly the
      head's ancestor path, total difficulties are sums back to genesis, and the
      head has maximal total difficulty. */
  lemma {:induction false} RunOfWrites(w: Headers, g: Header, s: State, steps: seq<Step>)
    requires Inv(w, g, s) && HeaderOnly(g, s) && FromWorld(w, steps)
    requires Heaviest(s) && NoOrphans(g, s)
    requires forall i :: 0 <= i < |steps| ==> steps[i].Write?
    ensures After(w, g, s, steps).1 != Panicked && Inv(w, g, After(w, g, s, steps).0)
    ensures Heaviest(After(w, g, s, steps).0) && NoOrphans(g, After(w, g, s, steps).0)
    decreases |steps|
  {
    if steps != [] {
      ApplyKeeps(w, g, s, steps[0]);
      WriteHeaderHeaviest(w, g, s, steps[0].h);
      RunOfWrites(w, g, Apply(w, g, s, steps[0]).0, steps[1..]);
    }
  }

  lemma InitialInv(w: Headers, g: Header)
    requires World(w, g)
    ensures Inv(w, g, Initial(g)) && HeaderOnly(g, Initial(g)) && Heaviest(Initial(g)) && NoOrphans(g, Initial(g))
  {
    assert Path(w, g, g) == [g];
    assert TotalDifficulty([g]) == g.difficulty;
  }

  // ---------- a run that panics ----------

  /** Genesis, two blocks on it, a lighter sibling of the second and a child of
      that sibling. */
  ghost predicate Example(g: Header, a: Header, b: Header, c: Header, d: Header, w: Headers) {
    && g == Header(1, 0, 0, 1) && a == Header(2, 1, 1, 1) && b == Header(3, 2, 2, 5)
    && c == Header(4, 2, 2, 3) && d == Header(5, 4, 3, 1)
    && w == map[1 := g, 2 := a, 3 := b, 4 := c, 5 := d]
  }

  lemma ExampleWorld(g: Header, a: Header, b: Header, c: Header, d: Header, w: Headers)
    requires Example(g, a, b, c, d, w)
    ensures World(w, g)
  {
    OneUp(w, g, a, g);
    OneUp(w, g, b, a);
    OneUp(w, g, c, a);
    OneUp(w, g, d, c);
  }

  /** A heavier header on top of the head extends the path. */
  lemma Extends(w: Headers, g: Header, s: State, h: Header)
    requires Inv(w, g, s) && HeaderOnly(g, s) && In(w, h) && h.parent == s.head.hash && h.number == s.head.number + 1
    requires h.difficulty > 0
    ensures var (s', outcome) := WriteHeader(w, g, s, h);
            && outcome == Written && s'.head == h
            && s'.headers == s.headers[h.hash := h]
            && s'.td == s.td[h.hash := s.td[s.head.hash] + h.difficulty]
  {
    OneUp(s.headers, g, h, s.head);
  }

  lemma AfterOne(w: Headers, g: Header, s: State, step: Step, rest: seq<Step>)
    requires Inv(w, g, s) && HeaderOnly(g, s) && (step.Write? ==> In(w, step.h)) && FromWorld(w, rest)
    requires Apply(w, g, s, step).1 != Panicked
    ensures FromWorld(w, [step] + rest)
    ensures Inv(w, g, Apply(w, g, s, step).0) && HeaderOnly(g, Apply(w, g, s, step).0)
    ensures After(w, g, s, [step] + rest) == After(w, g, Apply(w, g, s, step).0, rest)
  {
    ApplyKeeps(w, g, s, step);
    assert ([step] + rest)[1..] == rest;
  }

  /** `b` is the head, `c` a stored sibling. */
  ghost predicate ExampleState(g: Header, a: Header, b: Header, c: Header, s: State) {
    s.head == b && s.headers == map[1 := g, 2 := a, 3 := b, 4 := c] && s.td == map[1 := 1, 2 := 2, 3 := 7, 4 := 5]
  }

  /** A header that is not heavier is only stored. */
  lemma Aside(w: Headers, g: Header, s: State, h: Header)
    requires Inv(w, g, s) && h.parent in s.td && s.head.hash in s.td && !Heavier(s, h)
    ensures var (s', outcome) := WriteHeader(w, g, s, h);
            && outcome == Written && s'.head == s.head
            && s'.headers == s.headers[h.hash := h] && s'.td == s.td[h.hash := s.td[h.parent] + h.difficulty]
  {
  }

  /** Writing `b` and `c` on top of `a`. */
  lemma ExampleTail(g: Header, a: Header, b: Header, c: Header, d: Header, w: Headers, s1: State) returns (s: State)
    requires Example(g, a, b, c, d, w) && Inv(w, g, s1) && HeaderOnly(g, s1)
    requires s1.head == a && s1.headers == map[1 := g, 2 := a] && s1.td == map[1 := 1, 2 := 2]
    ensures FromWorld(w, [Write(b)] + [Write(c)]) && After(w, g, s1, [Write(b)] + [Write(c)]) == (s, Written)
    ensures ExampleState(g, a, b, c, s)
  {
    Extends(w, g, s1, b);
    AfterOne(w, g, s1, Write(b), [Write(c)]);
    var s2 := WriteHeader(w, g, s1, b).0;
    Aside(w, g, s2, c);
    AfterOne(w, g, s2, Write(c), []);
    assert [Write(c)] + [] == [Write(c)];
    s := WriteHeader(w, g, s2, c).0;
  }

  lemma ExampleWrites(g: Header, a: Header, b: Header, c: Header, d: Header, w: Headers) returns (s: State)
    requires Example(g, a, b, c, d, w)
    ensures Inv(w, g, Initial(g)) && HeaderOnly(g, Initial(g)) && FromWorld(w, [Write(a)] + ([Write(b)] + [Write(c)]))
    ensures After(w, g, Initial(g), [Write(a)] + ([Write(b)] + [Write(c)])) == (s, Written)
    ensures ExampleState(g, a, b, c, s)
  {
    ExampleWorld(g, a, b, c, d, w);
    InitialInv(w, g);
    Extends(w, g, Initial(g), a);
    ApplyKeeps(w, g, Initial(g), Write(a));
    s := ExampleTail(g, a, b, c, d, w, WriteHeader(w, g, Initial(g), a).0);
    AfterOne(w, g, Initial(g), Write(a), [Write(b)] + [Write(c)]);
  }

  lemma {:induction false} AfterJoin(w: Headers, g: Header, s: State, first: seq<Step>, rest: seq<Step>)
    requires Inv(w, g, s) && HeaderOnly(g, s) && FromWorld(w, first) && FromWorld(w, first + rest)
    requires After(w, g, s, first).1 != Panicked
    ensures FromWorld(w, rest)
    ensures Inv(w, g, After(w, g, s, first).0) && HeaderOnly(g, After(w, g, s, first).0)
    ensures After(w, g, s, first + rest) == After(w, g, After(w, g, s, first).0, rest)
    decreases |first|
  {
    forall i | 0 <= i < |rest| && rest[i].Write?
      ensures In(w, rest[i].h)
    {
      assert (first + rest)[|first| + i] == rest[i];
    }
    if first == [] {
      assert first + rest == rest;
    } else {
      ApplyKeeps(w, g, s, first[0]);
      assert (first + rest)[1..] == first[1..] + rest;
      AfterJoin(w, g, Apply(w, g, s, first[0]).0, first[1..], rest);
    }
  }

  lemma ExampleRewound(g: Header, a: Header, b: Header, c: Header, d: Header, w: Headers, s: State)
    requires Example(g, a, b, c, d, w) && Inv(w, g, s) && HeaderOnly(g, s) && ExampleState(g, a, b, c, s)
    ensures Inv(w, g, SetHead(w, g, s, 0)) && WriteHeader(w, g, SetHead(w, g, s, 0), d).1 == Panicked
  {
    OneUp(s.headers, g, a, g);
    OneUp(s.headers, g, b, a);
    assert Path(s.headers, g, b) == [g, a, b];
    SetHeadKeeps(w, g, s, 0);
    AboveOne([g, a, b]);
    assert SetHead(w, g, s, 0).headers == map[1 := g, 4 := c];
    WriteHeaderKeeps(w, g, SetHead(w, g, s, 0), d);
  }

  lemma AboveOne(p: seq<Header>)
    requires |p| == 3
    ensures Above(p, 0) == {p[1].hash, p[2].hash}
  {
    assert p[1].hash in Above(p, 0) && p[2].hash in Above(p, 0);
  }

  lemma ExampleEnds(g: Header, a: Header, b: Header, c: Header, d: Header, w: Headers, s: State)
    requires Example(g, a, b, c, d, w) && Inv(w, g, s) && HeaderOnly(g, s) && ExampleState(g, a, b, c, s)
    ensures FromWorld(w, [Rewind(0)] + [Write(d)]) && After(w, g, s, [Rewind(0)] + [Write(d)]).1 == Panicked
  {
    ExampleRewound(g, a, b, c, d, w, s);
    AfterOne(w, g, s, Rewind(0), [Write(d)]);
  }

  /** A rewind can leave a side branch without its ancestors: from a fresh chain,
      after writing `a`, `b` and `c` and rewinding to genesis, the arrival of `d`
      dereferences nil. */
  lemma RewindThenPanic(g: Header, a: Header, b: Header, c: Header, d: Header, w: Headers, steps: seq<Step>)
    requires Example(g, a, b, c, d, w) && steps == [Write(a), Write(b), Write(c), Rewind(0), Write(d)]
    ensures Inv(w, g, Initial(g)) && HeaderOnly(g, Initial(g)) && FromWorld(w, steps)
    ensures After(w, g, Initial(g), steps).1 == Panicked
  {
    var s := ExampleWrites(g, a, b, c, d, w);
    var first, rest := [Write(a)] + ([Write(b)] + [Write(c)]), [Rewind(0)] + [Write(d)];
    assert first + rest == steps;
    AfterJoin(w, g, Initial(g), first, rest);
    ExampleEnds(g, a, b, c, d, w, s);
  }
}
