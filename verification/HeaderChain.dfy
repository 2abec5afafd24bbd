/** The header chain object of core/blockchain.go: `writeHeader` and `SetHead`
    with their loops, proved to do what `HeaderMode` says. */
module HeaderChainObject {
  import opened Wrappers
  import opened ChainStore
  import opened HeaderMode

  class HeaderChain {
    const genesis: Header
    var headers: Headers
    var bodies: set<Hash>
    var td: map<Hash, nat>
    var canon: map<nat, Hash>
    var currentHeader: Header
    var currentBlock: Header
    var currentFastBlock: Header

    ghost function View(): State
      reads this
    {
      State(headers, bodies, td, canon, currentHeader, currentBlock, currentFastBlock)
    }

    constructor (g: Header)
      ensures genesis == g && View() == Initial(g)
    {
      genesis, headers, bodies := g, map[g.hash := g], {g.hash};
      td, canon := map[g.hash := g.difficulty], map[0 := g.hash];
      currentHeader, currentBlock, currentFastBlock := g, g, g;
    }

    function GetHeader(h: Hash): Option<Header>
      reads this
    {
      if h in headers then Some(headers[h]) else None
    }

    function GetBlock(h: Hash): Option<Header>
      reads this
    {
      if h in headers && h in bodies then Some(headers[h]) else None
    }

    /** Deletes the index entries from `from` up to the first missing one. */
    method DeleteAbove(from: nat, ghost p: seq<Header>)
      requires canon == IndexOf(p)
      modifies `canon
      ensures canon == map n | n in old(canon) && n < from :: old(canon)[n]
    {
      var i := from;
      while i in canon
        invariant from <= i
        invariant canon == map n | n in old(canon) && !(from <= n < i) :: old(canon)[n]
        decreases |p| - i
      {
        canon := map n | n in canon && n != i :: canon[n];
        i := i + 1;
      }
    }

    /** A stored header other than genesis has a number above zero, one more
        than its parent's if that is stored too. */
    ghost predicate Numbered()
      reads this
    {
      && Keyed(headers) && genesis.number == 0 && In(headers, genesis)
      && In(headers, currentHeader) && Connected(headers, genesis, currentHeader)
      && (forall h {:trigger In(headers, h)} :: In(headers, h) && h != genesis ==>
            h.number > 0 && (h.parent in headers ==> In(headers, headers[h.parent]) && headers[h.parent].number == h.number - 1))
    }

    lemma NumberedByWorld(w: Headers)
      requires HeaderMode.Inv(w, genesis, View())
      ensures Numbered()
    {
      forall h | In(headers, h) && h != genesis
        ensures h.number > 0 && (h.parent in headers ==> In(headers, headers[h.parent]) && headers[h.parent].number == h.number - 1)
      {
        WorldAt(w, genesis, h);
      }
    }

    /** The index as overwriting left it: at and below `head`, and above `start`, as
        it was; between them on the path of `start` if that is connected. */
    static ghost predicate Overwriting(hs: Headers, g: Header, start: Header, head: Header,
                                       was: map<nat, Hash>, now: map<nat, Hash>)
      requires g.number == 0
    {
      && In(hs, head) && head.number <= start.number
      && (Connected(hs, g, start) <==> Connected(hs, g, head))
      && (forall n: nat :: n <= head.number || n > start.number ==> SameAt(was, now, n))
      && (Connected(hs, g, start) ==> Path(hs, g, start)[head.number] == head)
      && (Connected(hs, g, start) ==> forall n :: head.number < n <= start.number ==>
            n in now && now[n] == Path(hs, g, start)[n].hash)
    }

    static predicate SameAt(was: map<nat, Hash>, now: map<nat, Hash>, n: nat) {
      (n in now <==> n in was) && (n in was ==> now[n] == was[n])
    }

    static lemma OverwriteStep(hs: Headers, g: Header, start: Header, head: Header,
                               was: map<nat, Hash>, now: map<nat, Hash>, next: map<nat, Hash>)
      requires Keyed(hs) && g.number == 0 && Overwriting(hs, g, start, head, was, now)
      requires next == now[head.number := head.hash] && head != g && head.number > 0
      requires head.parent in hs ==> In(hs, hs[head.parent]) && hs[head.parent].number == head.number - 1
      ensures head.parent in hs ==> Overwriting(hs, g, start, hs[head.parent], was, next)
      ensures head.parent !in hs ==> !Connected(hs, g, start)
      ensures forall n: nat :: n > start.number ==> SameAt(was, next, n)
    {
      forall n: nat | n <= head.number - 1 || n > start.number
        ensures SameAt(was, next, n)
      {
        assert SameAt(was, now, n);
      }
      if head.parent in hs && Connected(hs, g, start) {
        PathAt(hs, g, start, head.number - 1);
        forall n | head.number - 1 < n <= start.number
          ensures n in next && next[n] == Path(hs, g, start)[n].hash
        {
          assert n == head.number || n > head.number;
        }
      }
    }

    /** Overwrites stale index entries from `start` downwards until the index
        agrees; `ok` is false when a header is missing on the way. */
    method Overwrite(start: Header) returns (ok: bool)
      requires Numbered() && In(headers, start)
      requires forall n :: 0 <= n <= currentHeader.number && n <= start.number ==>
                 n in canon && canon[n] == Path(headers, genesis, currentHeader)[n].hash
      requires forall n :: n in canon && n <= start.number ==> n <= currentHeader.number
      modifies `canon
      ensures ok <==> Connected(headers, genesis, start)
      ensures ok ==> forall n :: 0 <= n <= start.number ==> n in canon && canon[n] == Path(headers, genesis, start)[n].hash
      ensures forall n: nat :: n > start.number ==> SameAt(old(canon), canon, n)
    {
      ghost var was := canon;
      var head := Some(start);
      while head.Some? && !(head.value.number in canon && canon[head.value.number] == head.value.hash)
        invariant head.Some? ==> Overwriting(headers, genesis, start, head.value, was, canon)
        invariant head.None? ==> !Connected(headers, genesis, start)
        invariant forall n: nat :: n > start.number ==> SameAt(was, canon, n)
        decreases if head.Some? then head.value.number + 1 else 0
      {
        assert head.value == genesis ==> SameAt(was, canon, 0);
        OverwriteStep(headers, genesis, start, head.value, was, canon, canon[head.value.number := head.value.hash]);
        canon := canon[head.value.number := head.value.hash];
        head := GetHeader(head.value.parent);
      }
      ok := head.Some?;
      if ok {
        Stopped(start, head.value, was);
      }
    }

    /** Where overwriting stops, the index below is that of the path of `start`. */
    lemma Stopped(start: Header, at: Header, was: map<nat, Hash>)
      requires Numbered() && In(headers, start) && Overwriting(headers, genesis, start, at, was, canon)
      requires forall n :: 0 <= n <= currentHeader.number && n <= start.number ==>
                 n in was && was[n] == Path(headers, genesis, currentHeader)[n].hash
      requires forall n :: n in was && n <= start.number ==> n <= currentHeader.number
      requires at.number in canon && canon[at.number] == at.hash
      ensures Connected(headers, genesis, start)
      ensures forall n :: 0 <= n <= start.number ==> n in canon && canon[n] == Path(headers, genesis, start)[n].hash
    {
      forall n | 0 <= n <= at.number
        ensures n in canon <==> n in was
        ensures n in was ==> canon[n] == was[n]
      {
        assert SameAt(was, canon, n);
      }
      OnIndex(at);
      Joined(start, at);
    }

    /** A header that the index still holds is on the path of the head. */
    lemma OnIndex(at: Header)
      requires Numbered() && In(headers, at)
      requires at.number in canon && canon[at.number] == at.hash && at.number <= currentHeader.number
      requires canon[at.number] == Path(headers, genesis, currentHeader)[at.number].hash
      ensures Path(headers, genesis, currentHeader)[at.number] == at && Connected(headers, genesis, at)
    {
      PathAt(headers, genesis, currentHeader, at.number);
    }

    /** Below the meeting point both paths, and so the index, agree. */
    lemma Joined(start: Header, at: Header)
      requires Numbered() && In(headers, start) && Connected(headers, genesis, start)
      requires at.number <= start.number && at.number <= currentHeader.number
      requires Path(headers, genesis, start)[at.number] == at && Path(headers, genesis, currentHeader)[at.number] == at
      requires forall n :: 0 <= n <= at.number ==> n in canon && canon[n] == Path(headers, genesis, currentHeader)[n].hash
      ensures forall n :: 0 <= n <= at.number ==> n in canon && canon[n] == Path(headers, genesis, start)[n].hash
    {
      forall n | 0 <= n <= at.number
        ensures Path(headers, genesis, start)[n] == Path(headers, genesis, currentHeader)[n]
      {
        PathsAgree(headers, genesis, start, currentHeader, at.number, n);
      }
    }

    /** An index of the parent's path, extended by one entry. */
    static lemma IndexGrows(q: seq<Header>, h: Header, below: map<nat, Hash>, canon: map<nat, Hash>)
      requires |q| == h.number
      requires forall n :: 0 <= n < |q| ==> n in canon && canon[n] == q[n].hash
      requires forall n: nat :: n > h.number - 1 ==> SameAt(below, canon, n)
      requires forall n :: n in below ==> n <= h.number
      ensures canon[h.number := h.hash] == IndexOf(q + [h])
    {
      var c := canon[h.number := h.hash];
      forall n: nat
        ensures n in c <==> n < |q + [h]|
      {
        assert n > h.number ==> SameAt(below, canon, n);
      }
    }

    /** Re-routes the index to the path of `h`. */
    method Reroute(h: Header) returns (ok: bool)
      requires Numbered() && canon == IndexOf(Path(headers, genesis, currentHeader))
      requires h != genesis && h.parent in headers && In(headers, headers[h.parent]) && h.number == headers[h.parent].number + 1
      modifies `canon
      ensures ok <==> Connected(headers, genesis, h)
      ensures ok ==> canon == IndexOf(Path(headers, genesis, h))
    {
      ghost var p := Path(headers, genesis, currentHeader);
      DeleteAbove(h.number + 1, p);
      ghost var below := canon;
      ok := Overwrite(headers[h.parent]);
      if ok {
        IndexGrows(Path(headers, genesis, headers[h.parent]), h, below, canon);
        canon := canon[h.number := h.hash];
      }
    }

    /** `writeHeader`. */
    method WriteHeader(ghost w: Headers, h: Header) returns (outcome: Outcome)
      requires HeaderMode.Inv(w, genesis, View()) && In(w, h)
      modifies this
      ensures outcome == HeaderMode.WriteHeader(w, genesis, old(View()), h).1
      ensures outcome != Panicked ==> View() == HeaderMode.WriteHeader(w, genesis, old(View()), h).0
      ensures outcome == Panicked ==> View() == old(View()).(canon := canon)
    {
      if h.parent !in td {
        return ParentUnknown;
      }
      TdStep(w, genesis, View(), h);
      NumberedByWorld(w);
      var newTd := td[h.parent] + h.difficulty;
      if newTd > td[currentHeader.hash] {
        var ok := Reroute(h);
        if !ok {
          return Panicked;
        }
        currentHeader := h;
      }
      td := td[h.hash := newTd];
      headers := headers[h.hash := h];
      outcome := Written;
    }

    /** Walks the head header down to number `n`, collecting what it leaves. */
    method RewindHeader(ghost w: Headers, n: nat) returns (head: Option<Header>, drop: set<Hash>)
      requires HeaderMode.Inv(w, genesis, View())
      ensures var p := Path(headers, genesis, currentHeader);
              var keep := if currentHeader.number <= n then currentHeader.number else n;
              head == Some(p[keep]) && drop == Above(p, keep)
    {
      ghost var p := Path(headers, genesis, currentHeader);
      head, drop := Some(currentHeader), {};
      while head.Some? && head.value.number > n
        invariant head.Some? && head.value.number < |p| && p[head.value.number] == head.value
        invariant currentHeader.number <= n ==> head.value == currentHeader
        invariant currentHeader.number > n ==> head.value.number >= n
        invariant drop == Above(p, head.value.number)
        decreases if head.Some? then head.value.number else 0
      {
        PathAt(headers, genesis, currentHeader, head.value.number - 1);
        drop := drop + {head.value.hash};
        head := GetHeader(head.value.parent);
      }
    }

    /** Walks a block head down to number `n`; `None` exactly if a body is missing
        on the way. */
    method RewindBlock(ghost w: Headers, start: Header, n: nat) returns (b: Option<Header>, drop: set<Hash>)
      requires HeaderMode.Inv(w, genesis, View()) && OnPath(genesis, View(), start)
      ensures var p := Path(headers, genesis, currentHeader);
              && b == Walk(bodies, p, start.number, n)
              && (b.Some? ==> b.value == p[if start.number <= n then start.number else n])
              && (b.None? <==> exists m :: n <= m < start.number && p[m].hash !in bodies)
              && forall h :: h in drop ==> exists m :: n < m < |p| && p[m].hash == h
    {
      ghost var p := Path(headers, genesis, currentHeader);
      WalkEnds(bodies, p, start.number, n);
      b, drop := Some(start), {};
      while b.Some? && b.value.number > n
        invariant b.Some? ==> b.value.number <= start.number && p[b.value.number] == b.value
        invariant Walk(bodies, p, start.number, n) == if b.Some? then Walk(bodies, p, b.value.number, n) else None
        invariant forall h :: h in drop ==> exists m :: n < m < |p| && p[m].hash == h
        decreases if b.Some? then b.value.number + 1 else 0
      {
        PathAt(headers, genesis, currentHeader, b.value.number - 1);
        assert n < b.value.number < |p| && p[b.value.number].hash == b.value.hash;
        drop := drop + {b.value.hash};
        b := GetBlock(b.value.parent);
      }
    }

    /** Deletes the index entries from `height` down to just above `n`. */
    method DeleteDown(height: nat, n: nat)
      modifies `canon
      ensures canon == map k | k in old(canon) && !(n < k <= height) :: old(canon)[k]
    {
      var i := height;
      while i > n
        invariant n <= i || i == height
        invariant canon == map k | k in old(canon) && !(i < k <= height) :: old(canon)[k]
      {
        canon := map k | k in canon && k != i :: canon[k];
        i := i - 1;
      }
    }

    method Delete(drop: set<Hash>)
      modifies `headers, `bodies, `td
      ensures headers == old(headers) - drop && bodies == old(bodies) - drop && td == old(td) - drop
    {
      var rest := drop;
      while rest != {}
        invariant rest <= drop
        invariant headers == old(headers) - (drop - rest)
        invariant bodies == old(bodies) - (drop - rest)
        invariant td == old(td) - (drop - rest)
        decreases rest
      {
        var h :| h in rest;
        headers, bodies, td := headers - {h}, bodies - {h}, td - {h};
        rest := rest - {h};
      }
    }

    /** All three walks of `SetHead`. */
    method Gather(ghost w: Headers, n: nat) returns (head: Header, b: Header, f: Header, drop: set<Hash>)
      requires HeaderMode.Inv(w, genesis, View()) && HeadsOnPath(genesis, View())
      ensures var p := Path(headers, genesis, currentHeader);
              var keep := if currentHeader.number <= n then currentHeader.number else n;
              && head == p[keep] && drop == Above(p, keep)
              && b == Rewound(genesis, bodies, p, currentBlock, n)
              && f == Rewound(genesis, bodies, p, currentFastBlock, n)
    {
      var h, dropH := RewindHeader(w, n);
      var bo, dropB := RewindBlock(w, currentBlock, n);
      var fo, dropF := RewindBlock(w, currentFastBlock, n);
      head := if h.Some? then h.value else genesis;
      b := if bo.Some? then bo.value else genesis;
      f := if fo.Some? then fo.value else genesis;
      drop := dropH + dropB + dropF;
      assert drop == dropH;
    }

    static lemma CutDown(p: seq<Header>, keep: nat, height: nat, n: nat)
      requires keep < |p| && |p| - 1 <= height && keep == (if |p| - 1 <= n then |p| - 1 else n)
      ensures (map k | k in IndexOf(p) && !(n < k <= height) :: IndexOf(p)[k]) == IndexOf(p[..keep + 1])
    {
    }

    static lemma SetHeadIs(w: Headers, g: Header, s: State, n: nat, p: seq<Header>, keep: nat)
      requires HeaderMode.Inv(w, g, s) && HeadsOnPath(g, s)
      requires p == Path(s.headers, g, s.head) && keep == (if s.head.number <= n then s.head.number else n)
      ensures HeaderMode.SetHead(w, g, s, n) ==
              State(s.headers - Above(p, keep), s.bodies - Above(p, keep), s.td - Above(p, keep), IndexOf(p[..keep + 1]),
                    p[keep], Rewound(g, s.bodies, p, s.block, n), Rewound(g, s.bodies, p, s.fast, n))
    {
    }

    /** `SetHead`. */
    method SetHead(ghost w: Headers, n: nat)
      requires HeaderMode.Inv(w, genesis, View()) && HeadsOnPath(genesis, View())
      modifies this
      ensures View() == HeaderMode.SetHead(w, genesis, old(View()), n)
    {
      ghost var s := View();
      var height := currentHeader.number;
      if currentBlock.number > height { height := currentBlock.number; }
      if currentFastBlock.number > height { height := currentFastBlock.number; }
      ghost var p := Path(headers, genesis, currentHeader);
      ghost var keep := if currentHeader.number <= n then currentHeader.number else n;
      var head, b, f, drop := Gather(w, n);
      DeleteDown(height, n);
      CutDown(p, keep, height, n);
      Delete(drop);
      currentHeader, currentBlock, currentFastBlock := head, b, f;
      SetHeadIs(w, genesis, s, n, p, keep);
    }
  }
}
