/** What holds over every run of the dial scheduler. */
module DialerProofs {
  import opened Dialer

  // ---------- history ----------

  predicate Sorted(h: seq<Past>) {
    forall i, j :: 0 <= i < j < |h| ==> h[i].exp <= h[j].exp
  }

  lemma {:induction false} AddCounts(h: seq<Past>, p: Past)
    ensures multiset(Add(h, p)) == multiset(h) + multiset{p}
  {
    if !(h == [] || p.exp < h[0].exp) {
      AddCounts(h[1..], p);
      assert h == [h[0]] + h[1..];
    }
  }

  lemma {:induction false} AddSorts(h: seq<Past>, p: Past)
    requires Sorted(h)
    ensures Sorted(Add(h, p))
    ensures forall i :: 0 <= i < |Add(h, p)| ==> Add(h, p)[i] == p || Add(h, p)[i] in h
  {
    if !(h == [] || p.exp < h[0].exp) {
      AddSorts(h[1..], p);
      var rest := Add(h[1..], p);
      forall i | 0 <= i < |rest|
        ensures h[0].exp <= rest[i].exp && (rest[i] == p || rest[i] in h)
      {
        if rest[i] != p {
          var j :| 0 <= j < |h[1..]| && h[1..][j] == rest[i];
          assert h[j + 1] == rest[i];
        }
      }
    }
  }

  lemma AddKeeps(h: seq<Past>, p: Past)
    requires Sorted(h)
    ensures Sorted(Add(h, p)) && multiset(Add(h, p)) == multiset(h) + multiset{p}
  {
    AddCounts(h, p);
    AddSorts(h, p);
  }

  /** Expiring leaves exactly the entries whose time has not passed. */
  lemma {:induction false} ExpireExact(h: seq<Past>, now: int)
    requires Sorted(h)
    ensures Sorted(Expire(h, now))
    ensures forall p: Past :: p in Expire(h, now) <==> p in h && p.exp >= now
  {
    if h != [] && h[0].exp < now {
      ExpireExact(h[1..], now);
      assert h == [h[0]] + h[1..];
    } else {
      forall p: Past | p in h
        ensures p.exp >= now
      {
        var i :| 0 <= i < |h| && h[i] == p;
        assert i > 0 ==> h[0].exp <= h[i].exp;
      }
    }
  }

  // ---------- collecting tasks ----------

  /** A task for a node that was not being dialed, is no peer and has no history. */
  predicate NewDial(base: DialState, peers: Conns, s: DialState, t: Task) {
    && t.Dial? && CanDial(base, peers, t.id)
    && t.id in s.dialing && s.dialing[t.id] == t.flag
  }

  predicate Distinct(ts: seq<Task>) {
    forall i, j :: 0 <= i < j < |ts| && ts[i].Dial? && ts[j].Dial? ==> ts[i].id != ts[j].id
  }

  predicate Extends(base: Conns, m: Conns) {
    forall id: Id :: id in base ==> id in m && m[id] == base[id]
  }

  predicate Covered(base: Conns, m: Conns, ts: seq<Task>) {
    forall id: Id :: id in m && id !in base ==> Dial(m[id], id) in ts
  }

  /** A plan in the making, against the state it started from. */
  ghost predicate Collects(base: DialState, peers: Conns, p: Plan) {
    && p.s == base.(dialing := p.s.dialing, lookupBuf := p.s.lookupBuf)
    && Extends(base.dialing, p.s.dialing) && Covered(base.dialing, p.s.dialing, p.tasks)
    && (forall i :: 0 <= i < |p.tasks| ==> NewDial(base, peers, p.s, p.tasks[i]))
    && Distinct(p.tasks)
    && p.need == Needed(p.s, peers)
  }

  lemma DynInsert(m: Conns, id: Id, flag: Flag)
    requires id !in m
    ensures |DynOf(m[id := flag])| == |DynOf(m)| + if flag == DynDialed then 1 else 0
  {
    if flag == DynDialed {
      assert DynOf(m[id := flag]) == DynOf(m) + {id};
    } else {
      assert DynOf(m[id := flag]) == DynOf(m);
    }
  }

  lemma AddDialKeeps(base: DialState, peers: Conns, p: Plan, flag: Flag, id: Id)
    requires Collects(base, peers, p)
    ensures Collects(base, peers, AddDial(p, peers, flag, id))
  {
    if CanDial(p.s, peers, id) {
      DynInsert(p.s.dialing, id, flag);
      var q := AddDial(p, peers, flag, id);
      forall i | 0 <= i < |q.tasks|
        ensures NewDial(base, peers, q.s, q.tasks[i])
      {
        if i < |p.tasks| {
          assert NewDial(base, peers, p.s, p.tasks[i]);
        }
      }
      assert q.tasks[|p.tasks|] == Dial(flag, id);
    }
  }

  lemma {:induction false} DialEachKeeps(base: DialState, peers: Conns, p: Plan, flag: Flag, ids: seq<Id>)
    requires Collects(base, peers, p)
    ensures Collects(base, peers, DialEach(p, peers, flag, ids))
    ensures var q := DialEach(p, peers, flag, ids); p.need - |ids| <= q.need <= p.need
    ensures flag != DynDialed ==> DialEach(p, peers, flag, ids).need == p.need
  {
    if ids != [] {
      DialEachKeeps(base, peers, p, flag, ids[..|ids| - 1]);
      AddDialKeeps(base, peers, DialEach(p, peers, flag, ids[..|ids| - 1]), flag, ids[|ids| - 1]);
    }
  }

  lemma {:induction false} DialLookupsKeeps(base: DialState, peers: Conns, p: Plan)
    requires Collects(base, peers, p)
    ensures Collects(base, peers, DialLookups(p, peers))
    ensures p.need >= 0 ==> DialLookups(p, peers).need >= 0
    ensures p.need < 0 ==> DialLookups(p, peers) == p
    decreases |p.s.lookupBuf|
  {
    if p.s.lookupBuf != [] && p.need > 0 {
      AddDialKeeps(base, peers, p, DynDialed, p.s.lookupBuf[0]);
      var q := AddDial(p, peers, DynDialed, p.s.lookupBuf[0]);
      var q' := q.(s := q.s.(lookupBuf := p.s.lookupBuf[1..]));
      forall i | 0 <= i < |q'.tasks|
        ensures NewDial(base, peers, q'.s, q'.tasks[i])
      {
        assert NewDial(base, peers, q.s, q.tasks[i]);
      }
      DialLookupsKeeps(base, peers, q');
    }
  }

  function Expired(s: DialState, now: int): DialState {
    s.(hist := Expire(s.hist, now))
  }

  /** All the dials of one round: fresh nodes only, and never more dynamic ones
      than are wanted. */
  lemma DialPlanKeeps(s: DialState, peers: Conns, now: int, order: seq<Id>, random: seq<Id>)
    ensures Collects(Expired(s, now), peers, DialPlan(s, peers, now, order, random))
    ensures var p := DialPlan(s, peers, now, order, random);
            p.need >= 0 || p.need == Needed(s, peers)
  {
    var base := Expired(s, now);
    var p0 := Plan(base, [], Needed(s, peers));
    var p1 := DialEach(p0, peers, StaticDialed, order);
    var some := Candidates(Needed(s, peers), s.bootstrapped, random);
    DialEachKeeps(base, peers, p0, StaticDialed, order);
    DialEachKeeps(base, peers, p1, DynDialed, some);
    DialLookupsKeeps(base, peers, DialEach(p1, peers, DynDialed, some));
  }

  predicate Tried(p: Plan, peers: Conns, ids: seq<Id>) {
    forall i :: 0 <= i < |ids| ==> !CanDial(p.s, peers, ids[i])
  }

  /** Buffered lookup results are used from the front: the ones dropped cannot be
      dialed any more, and some are left only when no more dials are wanted. */
  lemma {:induction false} LookupsTried(p: Plan, peers: Conns, q: Plan) returns (k: nat)
    requires q == DialLookups(p, peers)
    ensures k <= |p.s.lookupBuf|
    ensures q.s.lookupBuf == p.s.lookupBuf[k..] && Tried(q, peers, p.s.lookupBuf[..k])
    ensures q.s.lookupBuf != [] ==> q.need <= 0
    ensures Extends(p.s.dialing, q.s.dialing) && q.s.hist == p.s.hist
    decreases |p.s.lookupBuf|
  {
    if p.s.lookupBuf == [] || p.need <= 0 {
      k := 0;
    } else {
      var next := OneTried(p, peers);
      var j := LookupsTried(next, peers, q);
      k := j + 1;
      TriedFront(q, peers, p.s.lookupBuf, j);
    }
  }

  lemma OneTried(p: Plan, peers: Conns) returns (next: Plan)
    requires p.s.lookupBuf != [] && p.need > 0
    ensures DialLookups(p, peers) == DialLookups(next, peers) && next.s.lookupBuf == p.s.lookupBuf[1..]
    ensures Extends(p.s.dialing, next.s.dialing) && next.s.hist == p.s.hist && !CanDial(next.s, peers, p.s.lookupBuf[0])
  {
    var added := AddDial(p, peers, DynDialed, p.s.lookupBuf[0]);
    next := added.(s := added.s.(lookupBuf := p.s.lookupBuf[1..]));
  }

  lemma TriedFront(q: Plan, peers: Conns, buf: seq<Id>, j: nat)
    requires buf != [] && j <= |buf| - 1 && Tried(q, peers, buf[1..][..j]) && !CanDial(q.s, peers, buf[0])
    ensures Tried(q, peers, buf[..j + 1]) && buf[1..][j..] == buf[j + 1..]
  {
    assert buf[..j + 1] == [buf[0]] + buf[1..][..j];
  }

  // ---------- one round ----------

  predicate OneDiscovery(ts: seq<Task>) {
    forall i, j :: 0 <= i < j < |ts| ==> !(ts[i].Discover? && ts[j].Discover?)
  }

  predicate Searching(running: bool, ts: seq<Task>) {
    forall i :: 0 <= i < |ts| && ts[i].Discover? ==> running
  }

  predicate DialsNew(base: DialState, peers: Conns, s: DialState, ts: seq<Task>) {
    forall i :: 0 <= i < |ts| && ts[i].Dial? ==> NewDial(base, peers, s, ts[i])
  }

  ghost predicate Within(s: DialState, peers: Conns) {
    |DynOf(peers) + DynOf(s.dialing)| <= s.maxDyn
  }

  /** What one call of newTasks does to the state and what it returns. */
  ghost predicate Round(s: DialState, peers: Conns, now: int, p: Plan) {
    && p.s.hist == Expire(s.hist, now) && p.s.maxDyn == s.maxDyn && p.s.statics == s.statics
    && Extends(s.dialing, p.s.dialing) && Covered(s.dialing, p.s.dialing, p.tasks)
    && DialsNew(Expired(s, now), peers, p.s, p.tasks)
    && Distinct(p.tasks) && OneDiscovery(p.tasks)
    && (s.lookupRunning ==> p.s.lookupRunning && Searching(false, p.tasks))
    && Searching(p.s.lookupRunning, p.tasks)
    && (Within(s, peers) ==> Within(p.s, peers))
  }

  lemma BudgetKeeps(s: DialState, peers: Conns, p: Plan)
    requires Extends(s.dialing, p.s.dialing) && p.s.maxDyn == s.maxDyn
    requires p.need == Needed(p.s, peers) && (p.need >= 0 || p.need == Needed(s, peers))
    ensures Within(s, peers) ==> Within(p.s, peers)
  {
    var a, b, b' := DynOf(peers), DynOf(s.dialing), DynOf(p.s.dialing);
    UnionSize(a, b');
    if p.need < 0 {
      SameSize(b, b');
    }
  }

  lemma UnionSize(a: set<Id>, b: set<Id>)
    ensures |a + b| <= |a| + |b|
  {
    assert |a + b| + |a * b| == |a| + |b|;
  }

  lemma SameSize(a: set<Id>, b: set<Id>)
    requires a <= b && |a| == |b|
    ensures a == b
  {
    assert |b - a| == |b| - |a|;
    assert b == a + (b - a);
  }

  lemma NewTasksKeeps(s: DialState, running: nat, peers: Conns, now: int, order: seq<Id>, random: seq<Id>)
    ensures Round(s, peers, now, NewTasks(s, running, peers, now, order, random))
  {
    var p := DialPlan(s, peers, now, order, random);
    DialPlanKeeps(s, peers, now, order, random);
    BudgetKeeps(s, peers, p);
    assert forall i :: 0 <= i < |p.tasks| ==> p.tasks[i].Dial? by {
      forall i | 0 <= i < |p.tasks|
        ensures p.tasks[i].Dial?
      {
        assert NewDial(Expired(s, now), peers, p.s, p.tasks[i]);
      }
    }
    RoundOf(s, peers, now, p, WithDiscovery(p));
    RoundWait(s, peers, now, WithDiscovery(p), running);
  }

  lemma RoundOf(s: DialState, peers: Conns, now: int, p: Plan, q: Plan)
    requires Collects(Expired(s, now), peers, p) && q == WithDiscovery(p)
    requires forall i :: 0 <= i < |p.tasks| ==> p.tasks[i].Dial?
    requires Within(s, peers) ==> Within(p.s, peers)
    ensures Round(s, peers, now, q)
  {
    StillNew(Expired(s, now), peers, p, q);
    StillCovered(s.dialing, p, q);
  }

  lemma StillNew(base: DialState, peers: Conns, p: Plan, q: Plan)
    requires Collects(base, peers, p) && q == WithDiscovery(p)
    ensures DialsNew(base, peers, q.s, q.tasks) && Distinct(q.tasks)
  {
    forall i | 0 <= i < |q.tasks| && q.tasks[i].Dial?
      ensures NewDial(base, peers, q.s, q.tasks[i])
    {
      assert NewDial(base, peers, p.s, p.tasks[i]);
    }
  }

  lemma StillCovered(dialing: Conns, p: Plan, q: Plan)
    requires Covered(dialing, p.s.dialing, p.tasks) && q == WithDiscovery(p)
    ensures Covered(dialing, q.s.dialing, q.tasks)
  {
  }

  lemma RoundWait(s: DialState, peers: Conns, now: int, p: Plan, running: nat)
    requires Round(s, peers, now, p)
    ensures Round(s, peers, now, WithWait(p, running, now))
  {
  }

  /** A discovery is started exactly when none runs and the buffer does not hold
      enough candidates for the dials still wanted. */
  lemma DiscoversIff(s: DialState, running: nat, peers: Conns, now: int, order: seq<Id>, random: seq<Id>)
    ensures var p, ts := DialPlan(s, peers, now, order, random), NewTasks(s, running, peers, now, order, random).tasks;
            && ((exists i :: 0 <= i < |ts| && ts[i].Discover?) <==> !s.lookupRunning && |p.s.lookupBuf| < p.need)
            && forall i :: 0 <= i < |ts| && ts[i].Discover? ==> ts[i].bootstrap == !s.bootstrapped
  {
    var p := DialPlan(s, peers, now, order, random);
    DialPlanKeeps(s, peers, now, order, random);
    forall i | 0 <= i < |p.tasks|
      ensures p.tasks[i].Dial?
    {
      assert NewDial(Expired(s, now), peers, p.s, p.tasks[i]);
    }
    var ts := WithDiscovery(p).tasks;
    if !s.lookupRunning && |p.s.lookupBuf| < p.need {
      assert ts[|p.tasks|].Discover?;
    }
  }

  // ---------- every run ----------

  /** Every outstanding dial is on record, with its flag. */
  predicate Backed(dialing: Conns, ts: seq<Task>) {
    forall i :: 0 <= i < |ts| && ts[i].Dial? ==> ts[i].id in dialing && dialing[ts[i].id] == ts[i].flag
  }

  predicate Remembers(w: World) {
    forall id: Id :: id in w.doneAt ==> Remembered(w, id)
  }

  predicate Remembered(w: World, id: Id)
    requires id in w.doneAt
  {
    w.doneAt[id] <= w.now && (Past(id, w.doneAt[id] + EXPIRATION) in w.s.hist || w.doneAt[id] + EXPIRATION < w.now)
  }

  /** The history holds nothing but past dials. */
  predicate Recent(w: World) {
    forall p: Past :: p in w.s.hist ==> RecentEntry(w, p)
  }

  predicate RecentEntry(w: World, p: Past) {
    p.id in w.doneAt && p.exp <= w.doneAt[p.id] + EXPIRATION
  }

  ghost predicate Inv(w: World) {
    var ts := w.running + w.pending;
    && Backed(w.s.dialing, ts) && Distinct(ts)
    && OneDiscovery(ts) && Searching(w.s.lookupRunning, ts)
    && Sorted(w.s.hist) && Remembers(w) && Recent(w)
    && Within(w.s, w.peers)
  }

  lemma StartInv(maxDyn: nat, statics: set<Id>, now: int)
    ensures Inv(Start(maxDyn, statics, now))
  {
    assert DynOf(map[]) == {};
  }

  predicate Loses(w: World, added: seq<Task>) {
    |w.running| >= MAX_ACTIVE && added != []
  }

  /** A free slot is never left while a task waits, and at most sixteen tasks run. */
  lemma SlotsFilled(w: World, now: int, order: seq<Id>, random: seq<Id>)
    requires |w.running| < 16
    ensures var w' := Ticked(w, now, order, random);
            |w'.running| <= 16 && (w'.pending != [] ==> |w'.running| == 16)
  {
  }

  lemma ScheduleKeeps(w: World, added: seq<Task>)
    ensures var (running, pending) := Schedule(w.running, w.pending, added);
            running + pending == w.running + w.pending + if Loses(w, added) then [] else added
  {
    var pt := w.pending + added;
    assert w.running + w.pending + added == w.running + pt;
    var free := MAX_ACTIVE - |w.running|;
    var start := if |pt| < free then |pt| else free;
    if start > 0 {
      assert w.running + pt[..start] + pt[start..] == w.running + pt;
    } else {
      assert w.pending + [] == w.pending;
    }
  }

  lemma TasksJoin(ts: seq<Task>, added: seq<Task>, s: DialState, peers: Conns, now: int, p: Plan)
    requires Backed(s.dialing, ts) && Distinct(ts) && OneDiscovery(ts) && Searching(s.lookupRunning, ts)
    requires Round(s, peers, now, p) && (added == p.tasks || added == [])
    ensures var all := ts + added;
            Backed(p.s.dialing, all) && Distinct(all) && OneDiscovery(all) && Searching(p.s.lookupRunning, all)
  {
    var all := ts + added;
    forall i | 0 <= i < |all| && all[i].Dial?
      ensures all[i].id in p.s.dialing && p.s.dialing[all[i].id] == all[i].flag
      ensures i >= |ts| ==> all[i].id !in s.dialing
    {
      if i >= |ts| {
        assert NewDial(Expired(s, now), peers, p.s, p.tasks[i - |ts|]);
      }
    }
  }

  lemma TickKeeps(w: World, now: int, order: seq<Id>, random: seq<Id>)
    requires Inv(w) && now >= w.now
    ensures Inv(Ticked(w, now, order, random))
  {
    var p := NewTasks(w.s, |w.pending| + |w.running|, w.peers, now, order, random);
    NewTasksKeeps(w.s, |w.pending| + |w.running|, w.peers, now, order, random);
    ScheduleKeeps(w, p.tasks);
    TasksJoin(w.running + w.pending, if Loses(w, p.tasks) then [] else p.tasks, w.s, w.peers, now, p);
    TickRemembers(w, now, order, random);
  }

  lemma TickRemembers(w: World, now: int, order: seq<Id>, random: seq<Id>)
    requires Inv(w) && now >= w.now && Ticked(w, now, order, random).s.hist == Expire(w.s.hist, now)
    ensures var w' := Ticked(w, now, order, random);
            Sorted(w'.s.hist) && Remembers(w') && Recent(w')
  {
    ExpireExact(w.s.hist, now);
    var w' := Ticked(w, now, order, random);
    forall id: Id | id in w'.doneAt
      ensures Remembered(w', id)
    {
      assert Remembered(w, id);
    }
    forall p: Past | p in w'.s.hist
      ensures RecentEntry(w', p)
    {
      assert RecentEntry(w, p);
    }
  }

  lemma WithoutKeeps(ts: seq<Task>, pending: seq<Task>, k: nat, dialing: Conns)
    requires k < |ts| && Backed(dialing, ts + pending) && Distinct(ts + pending) && OneDiscovery(ts + pending)
    ensures var rest := Without(ts, k) + pending;
            && Distinct(rest) && OneDiscovery(rest)
            && Backed(if ts[k].Dial? then dialing - {ts[k].id} else dialing, rest)
            && (ts[k].Discover? ==> Searching(false, rest))
            && (forall b: bool :: Searching(b, ts + pending) ==> Searching(b, rest))
  {
    var all, rest := ts + pending, Without(ts, k) + pending;
    assert all[k] == ts[k];
    assert forall i :: 0 <= i < |rest| ==> rest[i] == all[if i < k then i else i + 1];
  }

  lemma DynShrinks(a: Conns, b: Conns, id: Id)
    ensures |DynOf(a) + DynOf(b - {id})| <= |DynOf(a) + DynOf(b)|
    ensures |DynOf(a - {id}) + DynOf(b)| <= |DynOf(a) + DynOf(b)|
  {
    SubsetSize(DynOf(a) + DynOf(b - {id}), DynOf(a) + DynOf(b));
    SubsetSize(DynOf(a - {id}) + DynOf(b), DynOf(a) + DynOf(b));
  }

  lemma SubsetSize(a: set<Id>, b: set<Id>)
    requires a <= b
    ensures |a| <= |b|
  {
    assert |b - a| == |b| - |a|;
  }

  lemma AddMembers(h: seq<Past>, q: Past, p: Past)
    requires Sorted(h)
    ensures p in Add(h, q) <==> p in h || p == q
  {
    AddKeeps(h, q);
    assert p in Add(h, q) <==> p in multiset(Add(h, q));
    assert p in h <==> p in multiset(h);
  }

  lemma DoneRemembers(w: World, index: nat, results: seq<Id>)
    requires Inv(w) && index < |w.running| && w.running[index].Dial?
    ensures Remembers(Reported(w, index, results)) && Sorted(Reported(w, index, results).s.hist)
  {
    var t := w.running[index];
    var w' := Reported(w, index, results);
    var entry := Past(t.id, w.now + EXPIRATION);
    AddKeeps(w.s.hist, entry);
    forall id: Id | id in w'.doneAt
      ensures Remembered(w', id)
    {
      AddMembers(w.s.hist, entry, Past(id, w'.doneAt[id] + EXPIRATION));
      if id != t.id {
        assert Remembered(w, id);
      }
    }
  }

  lemma DoneRecent(w: World, index: nat, results: seq<Id>)
    requires Inv(w) && index < |w.running| && w.running[index].Dial?
    ensures Recent(Reported(w, index, results))
  {
    var t := w.running[index];
    var w' := Reported(w, index, results);
    var entry := Past(t.id, w.now + EXPIRATION);
    forall p: Past | p in w'.s.hist
      ensures RecentEntry(w', p)
    {
      AddMembers(w.s.hist, entry, p);
      if p != entry {
        assert RecentEntry(w, p);
        assert Remembered(w, p.id);
      }
    }
  }

  lemma DoneDials(w: World, index: nat, results: seq<Id>)
    requires Inv(w) && index < |w.running| && w.running[index].Dial?
    ensures Inv(Reported(w, index, results))
  {
    WithoutKeeps(w.running, w.pending, index, w.s.dialing);
    DoneRemembers(w, index, results);
    DoneRecent(w, index, results);
    DynShrinks(w.peers, w.s.dialing, w.running[index].id);
  }

  lemma DoneOther(w: World, index: nat, results: seq<Id>)
    requires Inv(w) && index < |w.running| && !w.running[index].Dial?
    ensures Inv(Reported(w, index, results))
  {
    WithoutKeeps(w.running, w.pending, index, w.s.dialing);
    SameMemory(w, Reported(w, index, results));
  }

  lemma DoneKeeps(w: World, index: nat, results: seq<Id>)
    requires Inv(w) && index < |w.running|
    ensures Inv(Reported(w, index, results))
  {
    if w.running[index].Dial? {
      DoneDials(w, index, results);
    } else {
      DoneOther(w, index, results);
    }
  }

  lemma SameMemory(w: World, w': World)
    requires w'.s.hist == w.s.hist && w'.doneAt == w.doneAt && w'.now == w.now && Remembers(w) && Recent(w)
    ensures Remembers(w') && Recent(w')
  {
    forall id: Id | id in w'.doneAt
      ensures Remembered(w', id)
    {
      assert Remembered(w, id);
    }
    forall p: Past | p in w'.s.hist
      ensures RecentEntry(w', p)
    {
      assert RecentEntry(w, p);
    }
  }

  lemma DynSame(peers: Conns, dialing: Conns, id: Id, flag: Flag)
    requires id !in peers && (flag == DynDialed ==> id in dialing && dialing[id] == DynDialed)
    ensures DynOf(peers[id := flag]) + DynOf(dialing) == DynOf(peers) + DynOf(dialing)
  {
    if flag == DynDialed {
      assert DynOf(peers[id := flag]) == DynOf(peers) + {id};
    } else {
      assert DynOf(peers[id := flag]) == DynOf(peers);
    }
  }

  lemma DynJoins(w: World, id: Id, flag: Flag)
    requires Inv(w) && id !in w.peers && (flag == Inbound || Dial(flag, id) in w.running)
    ensures DynOf(w.peers[id := flag]) + DynOf(w.s.dialing) == DynOf(w.peers) + DynOf(w.s.dialing)
  {
    if flag == DynDialed {
      var i :| 0 <= i < |w.running| && w.running[i] == Dial(flag, id);
      assert (w.running + w.pending)[i] == Dial(flag, id);
    }
    DynSame(w.peers, w.s.dialing, id, flag);
  }

  lemma AddPeerKeeps(w: World, id: Id, flag: Flag)
    requires Inv(w) && id !in w.peers && (flag == Inbound || Dial(flag, id) in w.running)
    ensures Inv(w.(peers := w.peers[id := flag]))
  {
    DynJoins(w, id, flag);
    SameMemory(w, w.(peers := w.peers[id := flag]));
  }

  lemma DelPeerKeeps(w: World, id: Id)
    requires Inv(w)
    ensures Inv(w.(peers := w.peers - {id}))
  {
    DynShrinks(w.peers, w.s.dialing, id);
    SameMemory(w, w.(peers := w.peers - {id}));
  }

  lemma AddStaticKeeps(w: World, id: Id)
    requires Inv(w)
    ensures Inv(w.(s := w.s.(statics := w.s.statics + {id})))
  {
    SameMemory(w, w.(s := w.s.(statics := w.s.statics + {id})));
  }

  /** A run of the server loop. */
  ghost predicate Run(ws: seq<World>, es: seq<Event>) {
    && |ws| == |es| + 1
    && forall i :: 0 <= i < |es| ==> Enabled(ws[i], es[i]) && ws[i + 1] == Next(ws[i], es[i])
  }

  /** Over every run: dynamic dials and peers together stay within their limit, no
      node is dialed twice at once, and one discovery is outstanding at most. */
  lemma {:induction false} RunKeeps(ws: seq<World>, es: seq<Event>, i: nat)
    requires Run(ws, es) && Inv(ws[0]) && i < |ws|
    ensures Inv(ws[i])
  {
    if i > 0 {
      RunKeeps(ws, es, i - 1);
      var e := es[i - 1];
      match e
      case Tick(now, order, random) => TickKeeps(ws[i - 1], now, order, random);
      case Done(index, results) => DoneKeeps(ws[i - 1], index, results);
      case AddPeer(id, flag) => AddPeerKeeps(ws[i - 1], id, flag);
      case DelPeer(id) => DelPeerKeeps(ws[i - 1], id);
      case AddStatic(id) => AddStaticKeeps(ws[i - 1], id);
    }
  }

  /** Whether a node may be dialed: it is no peer, it is not being dialed, and its
      last dial was reported more than thirty seconds ago. */
  lemma DialableIff(w: World, now: int, id: Id)
    requires Inv(w) && now >= w.now
    ensures CanDial(Expired(w.s, now), w.peers, id) <==>
            id !in w.peers && id !in w.s.dialing && (id in w.doneAt ==> now > w.doneAt[id] + 30_000_000_000)
  {
    ExpireExact(w.s.hist, now);
    var h := Expire(w.s.hist, now);
    if id in w.doneAt {
      assert Remembered(w, id);
      var entry := Past(id, w.doneAt[id] + EXPIRATION);
      if entry in h {
        var k :| 0 <= k < |h| && h[k] == entry;
        assert h[k].id == id;
      }
    }
    forall k | 0 <= k < |h| && h[k].id == id
      ensures id in w.doneAt && now <= w.doneAt[id] + EXPIRATION
    {
      assert h[k] in h;
      assert RecentEntry(w, h[k]);
    }
  }

  function TickTasks(w: World, now: int, order: seq<Id>, random: seq<Id>): seq<Task> {
    NewTasks(w.s, |w.pending| + |w.running|, w.peers, now, order, random).tasks
  }

  /** A round dials no peer, no node already being dialed, and none whose last dial
      was reported within the last thirty seconds. */
  lemma RedialGap(w: World, now: int, order: seq<Id>, random: seq<Id>, flag: Flag, id: Id)
    requires Inv(w) && now >= w.now && Dial(flag, id) in TickTasks(w, now, order, random)
    ensures id !in w.peers && id !in w.s.dialing && (id in w.doneAt ==> now > w.doneAt[id] + 30_000_000_000)
  {
    var p := NewTasks(w.s, |w.pending| + |w.running|, w.peers, now, order, random);
    NewTasksKeeps(w.s, |w.pending| + |w.running|, w.peers, now, order, random);
    var i :| 0 <= i < |p.tasks| && p.tasks[i] == Dial(flag, id);
    assert NewDial(Expired(w.s, now), w.peers, p.s, p.tasks[i]);
    DialableIff(w, now, id);
  }

  // ---------- static nodes ----------

  lemma {:induction false} DialEachExtends(p: Plan, peers: Conns, flag: Flag, ids: seq<Id>)
    ensures Extends(p.s.dialing, DialEach(p, peers, flag, ids).s.dialing)
    ensures DialEach(p, peers, flag, ids).s.hist == p.s.hist
    ensures forall id: Id :: id in ids && CanDial(p.s, peers, id) ==> id in DialEach(p, peers, flag, ids).s.dialing
    ensures forall id: Id :: id in DialEach(p, peers, flag, ids).s.dialing && id !in p.s.dialing ==>
              DialEach(p, peers, flag, ids).s.dialing[id] == flag
  {
    if ids != [] {
      DialEachExtends(p, peers, flag, ids[..|ids| - 1]);
      assert ids == ids[..|ids| - 1] + [ids[|ids| - 1]];
    }
  }

  lemma {:induction false} DialLookupsExtends(p: Plan, peers: Conns)
    ensures Extends(p.s.dialing, DialLookups(p, peers).s.dialing)
    decreases |p.s.lookupBuf|
  {
    if p.s.lookupBuf != [] && p.need > 0 {
      var q := AddDial(p, peers, DynDialed, p.s.lookupBuf[0]);
      DialLookupsExtends(q.(s := q.s.(lookupBuf := p.s.lookupBuf[1..])), peers);
    }
  }

  lemma StaticPlanned(s: DialState, peers: Conns, now: int, order: seq<Id>, random: seq<Id>, id: Id)
    requires id in order && CanDial(Expired(s, now), peers, id)
    ensures Dial(StaticDialed, id) in DialPlan(s, peers, now, order, random).tasks
  {
    var p0 := Plan(Expired(s, now), [], Needed(s, peers));
    var p1 := DialEach(p0, peers, StaticDialed, order);
    var some := Candidates(Needed(s, peers), s.bootstrapped, random);
    DialEachExtends(p0, peers, StaticDialed, order);
    DialEachExtends(p1, peers, DynDialed, some);
    DialLookupsExtends(DialEach(p1, peers, DynDialed, some), peers);
    DialPlanKeeps(s, peers, now, order, random);
  }

  /** A static node is dialed in a round exactly when it may be. */
  lemma StaticDialedIff(w: World, now: int, order: seq<Id>, random: seq<Id>, id: Id)
    requires Inv(w) && now >= w.now && id in order
    ensures Dial(StaticDialed, id) in TickTasks(w, now, order, random) <==>
            id !in w.peers && id !in w.s.dialing && (id in w.doneAt ==> now > w.doneAt[id] + 30_000_000_000)
  {
    DialableIff(w, now, id);
    if CanDial(Expired(w.s, now), w.peers, id) {
      StaticPlanned(w.s, w.peers, now, order, random, id);
      TasksGrow(DialPlan(w.s, w.peers, now, order, random), |w.pending| + |w.running|, now, Dial(StaticDialed, id));
    }
    if Dial(StaticDialed, id) in TickTasks(w, now, order, random) {
      RedialGap(w, now, order, random, StaticDialed, id);
    }
  }

  /** A static node that was a peer and is dropped is dialed in the next round that may. */
  lemma DroppedIsDialed(w: World, now: int, order: seq<Id>, random: seq<Id>, id: Id, after: World)
    requires Inv(w) && id in w.peers && after == Next(w, DelPeer(id)) && now >= w.now && id in order
    requires id !in w.s.dialing && (id in w.doneAt ==> now > w.doneAt[id] + 30_000_000_000)
    ensures Dial(StaticDialed, id) in TickTasks(after, now, order, random)
  {
    DelPeerKeeps(w, id);
    StaticDialedIff(after, now, order, random, id);
  }

  lemma TasksGrow(p: Plan, running: nat, now: int, t: Task)
    requires t in p.tasks
    ensures t in WithWait(WithDiscovery(p), running, now).tasks
  {
  }

  /** The loop hands a finished task the clock it read before it started to wait.
      So, for any node, thirty seconds pass between the moment its dial really ends
      and the first later round that may dial it again exactly when the report came
      at the very clock of the round. */
  lemma RealGapIff(w: World, index: nat, results: seq<Id>, ended: int)
    requires Inv(w) && index < |w.running| && w.running[index].Dial? && ended >= w.now
    requires w.running[index].id !in w.peers
    ensures var id, after := w.running[index].id, Reported(w, index, results);
            (forall now: int :: now >= ended && CanDial(Expired(after.s, now), after.peers, id) ==> now > ended + 30_000_000_000)
            <==> ended == w.now
  {
    var id, after := w.running[index].id, Reported(w, index, results);
    DoneKeeps(w, index, results);
    forall now: int | now >= ended
      ensures CanDial(Expired(after.s, now), after.peers, id) <==> now > w.now + EXPIRATION
    {
      DialableIff(after, now, id);
    }
    if ended > w.now {
      var now := if ended > w.now + EXPIRATION then ended else w.now + EXPIRATION + 1;
      assert CanDial(Expired(after.s, now), after.peers, id);
    }
  }

  /** And a static node is then dialed: the gap is kept in all later rounds exactly
      when the report came at the clock of the round. */
  lemma StaticGapIff(w: World, index: nat, results: seq<Id>, order: seq<Id>, random: seq<Id>, ended: int)
    requires Inv(w) && index < |w.running| && w.running[index].Dial? && ended >= w.now
    requires w.running[index].id in order && w.running[index].id !in w.peers
    ensures var id, after := w.running[index].id, Reported(w, index, results);
            (forall now: int :: now >= ended && Dial(StaticDialed, id) in TickTasks(after, now, order, random) ==>
               now > ended + 30_000_000_000)
            <==> ended == w.now
  {
    var id, after := w.running[index].id, Reported(w, index, results);
    DoneKeeps(w, index, results);
    forall now: int | now >= ended
      ensures Dial(StaticDialed, id) in TickTasks(after, now, order, random) <==> now > w.now + EXPIRATION
    {
      StaticDialedIff(after, now, order, random, id);
    }
    if ended > w.now {
      var now := if ended > w.now + EXPIRATION then ended else w.now + EXPIRATION + 1;
      assert Dial(StaticDialed, id) in TickTasks(after, now, order, random);
    }
  }

  // ---------- lost tasks ----------

  predicate Outstanding(w: World, id: Id) {
    exists i :: 0 <= i < |w.running + w.pending| && DialsNode((w.running + w.pending)[i], id)
  }

  predicate DialsNode(t: Task, id: Id) {
    t.Dial? && t.id == id
  }

  /** On record as being dialed, with no task that would ever finish. */
  predicate Orphan(w: World, id: Id) {
    id in w.s.dialing && !Outstanding(w, id)
  }

  predicate Dials(ts: seq<Task>, id: Id) {
    exists i :: 0 <= i < |ts| && DialsNode(ts[i], id)
  }

  lemma DialsJoin(a: seq<Task>, b: seq<Task>, id: Id)
    ensures Dials(a + b, id) <==> Dials(a, id) || Dials(b, id)
  {
    assert forall i :: 0 <= i < |a| ==> (a + b)[i] == a[i];
    assert forall i :: 0 <= i < |b| ==> (a + b)[|a| + i] == b[i];
  }

  /** Dials are orphaned by exactly the rounds that add tasks while all slots are
      taken: then every node they dial is. */
  lemma TickOrphans(w: World, now: int, order: seq<Id>, random: seq<Id>, id: Id)
    requires Inv(w)
    ensures Orphan(Ticked(w, now, order, random), id) <==>
            Orphan(w, id) || (|w.running| >= MAX_ACTIVE && Dials(TickTasks(w, now, order, random), id))
  {
    var p := NewTasks(w.s, |w.pending| + |w.running|, w.peers, now, order, random);
    NewTasksKeeps(w.s, |w.pending| + |w.running|, w.peers, now, order, random);
    ScheduleKeeps(w, p.tasks);
    var ts, added := w.running + w.pending, if Loses(w, p.tasks) then [] else p.tasks;
    DialsJoin(ts, added, id);
    TickRecord(w, now, p, id);
    assert Outstanding(w, id) <==> Dials(ts, id);
    assert Outstanding(Ticked(w, now, order, random), id) <==> Dials(ts + added, id);
  }

  lemma TickRecord(w: World, now: int, p: Plan, id: Id)
    requires Round(w.s, w.peers, now, p) && Backed(w.s.dialing, w.running + w.pending)
    ensures id in p.s.dialing <==> id in w.s.dialing || Dials(p.tasks, id)
    ensures Dials(p.tasks, id) ==> id !in w.s.dialing
    ensures Outstanding(w, id) ==> id in w.s.dialing
  {
    forall i | 0 <= i < |p.tasks| && DialsNode(p.tasks[i], id)
      ensures id in p.s.dialing && id !in w.s.dialing
    {
      assert NewDial(Expired(w.s, now), w.peers, p.s, p.tasks[i]);
    }
    if id in p.s.dialing && id !in w.s.dialing {
      var k :| 0 <= k < |p.tasks| && p.tasks[k] == Dial(p.s.dialing[id], id);
      assert DialsNode(p.tasks[k], id);
    }
  }

  /** An orphaned dial stays so for the rest of the run. */
  lemma OrphanStep(w: World, e: Event, id: Id)
    requires Inv(w) && Enabled(w, e) && Orphan(w, id)
    ensures Orphan(Next(w, e), id)
  {
    match e
    case Tick(now, order, random) => TickOrphans(w, now, order, random, id);
    case Done(index, _) =>
      var ts, rest := w.running + w.pending, Without(w.running, index) + w.pending;
      assert ts[index] == w.running[index];
      assert forall i :: 0 <= i < |rest| ==> rest[i] == ts[if i < index then i else i + 1];
      assert !DialsNode(ts[index], id);
    case AddPeer(_, _) =>
    case DelPeer(_) =>
    case AddStatic(_) =>
  }

  /** A node orphaned once is never dialed again, and a dynamic one keeps its place
      among the limited dynamic dials. */
  lemma {:induction false} OrphanForever(ws: seq<World>, es: seq<Event>, i: nat, id: Id)
    requires Run(ws, es) && Inv(ws[0]) && Orphan(ws[0], id) && i < |ws|
    ensures Orphan(ws[i], id) && ws[i].s.dialing[id] == ws[0].s.dialing[id]
    ensures forall now: int, order: seq<Id>, random: seq<Id>, flag: Flag ::
              Dial(flag, id) !in TickTasks(ws[i], now, order, random)
  {
    RunKeeps(ws, es, i);
    if i > 0 {
      OrphanForever(ws, es, i - 1, id);
      RunKeeps(ws, es, i - 1);
      OrphanStep(ws[i - 1], es[i - 1], id);
      KeptRecord(ws[i - 1], es[i - 1], id);
    }
    NeverAgain(ws[i], id);
  }

  lemma NeverAgain(w: World, id: Id)
    requires id in w.s.dialing
    ensures forall now: int, order: seq<Id>, random: seq<Id>, flag: Flag ::
              Dial(flag, id) !in TickTasks(w, now, order, random)
  {
    forall now: int, order: seq<Id>, random: seq<Id>, flag: Flag
      ensures Dial(flag, id) !in TickTasks(w, now, order, random)
    {
      NeverTwice(w, now, order, random, flag, id);
    }
  }

  lemma NeverTwice(w: World, now: int, order: seq<Id>, random: seq<Id>, flag: Flag, id: Id)
    requires id in w.s.dialing
    ensures Dial(flag, id) !in TickTasks(w, now, order, random)
  {
    var p := NewTasks(w.s, |w.pending| + |w.running|, w.peers, now, order, random);
    NewTasksKeeps(w.s, |w.pending| + |w.running|, w.peers, now, order, random);
    forall i | 0 <= i < |p.tasks|
      ensures p.tasks[i] != Dial(flag, id)
    {
      assert p.tasks[i].Dial? ==> NewDial(Expired(w.s, now), w.peers, p.s, p.tasks[i]);
    }
  }

  lemma KeptRecord(w: World, e: Event, id: Id)
    requires Inv(w) && Enabled(w, e) && Orphan(w, id) && Orphan(Next(w, e), id)
    ensures Next(w, e).s.dialing[id] == w.s.dialing[id]
  {
    if e.Tick? {
      NewTasksKeeps(w.s, |w.pending| + |w.running|, w.peers, e.now, e.order, e.random);
    }
  }

  // ---------- an orphan in three events ----------

  lemma {:induction false} AllDialed(p: Plan, peers: Conns, ids: seq<Id>)
    requires forall id: Id :: id in ids ==> CanDial(p.s, peers, id)
    requires forall i, j :: 0 <= i < j < |ids| ==> ids[i] != ids[j]
    ensures var q := DialEach(p, peers, StaticDialed, ids);
            && |q.tasks| == |p.tasks| + |ids| && q.s == p.s.(dialing := q.s.dialing) && q.need == p.need
            && forall id: Id :: id in q.s.dialing ==> id in p.s.dialing || id in ids
  {
    if ids != [] {
      var rest := ids[..|ids| - 1];
      assert ids == rest + [ids[|ids| - 1]];
      AllDialed(p, peers, rest);
      var q, last := DialEach(p, peers, StaticDialed, rest), ids[|ids| - 1];
      assert last in ids && last !in rest;
      assert CanDial(p.s, peers, last);
      assert CanDial(q.s, peers, last);
    }
  }

  function Upto(n: nat): seq<Id> {
    seq(n, i => i)
  }

  function Below(n: nat): set<Id> {
    set id: Id | id in Upto(n)
  }

  lemma UptoLists(n: nat)
    ensures Lists(Upto(n), Below(n))
  {
  }

  lemma SixteenRunning(w: World)
    requires w == Start(0, Below(16), 0)
    ensures |Ticked(w, 0, Upto(16), []).running| == 16
    ensures Ticked(w, 0, Upto(16), []).s.statics == Below(16) && Ticked(w, 0, Upto(16), []).now == 0
    ensures var t := Ticked(w, 0, Upto(16), []); t.peers == map[] && t.doneAt == map[] && 16 !in t.s.dialing
  {
    UptoLists(16);
    assert DynOf(map[]) == {};
    StaticsOnly(w, Upto(16));
  }

  /** A first round without dynamic dials dials every static node. */
  lemma StaticsOnly(w: World, order: seq<Id>)
    requires w.s.maxDyn == 0 && w.s.dialing == map[] && w.s.hist == [] && w.s.lookupBuf == [] && w.peers == map[] && w.now == 0
    requires w.running == [] && w.pending == [] && 0 < |order| <= 16 && DynOf(map[]) == {}
    requires forall i, j :: 0 <= i < j < |order| ==> order[i] != order[j]
    ensures var t := Ticked(w, 0, order, []);
            && |t.running| == |order| && t.s.statics == w.s.statics && t.now == 0 && t.peers == map[] && t.doneAt == w.doneAt
            && forall id: Id :: id in t.s.dialing ==> id in order
  {
    var p0 := Plan(w.s, [], 0);
    AllDialed(p0, w.peers, order);
    var p1 := DialEach(p0, w.peers, StaticDialed, order);
    assert DialEach(p1, w.peers, DynDialed, []) == p1;
    assert DialPlan(w.s, w.peers, 0, order, []) == p1;
  }

  /** With sixteen dials under way, adding one more static node orphans it. */
  lemma OrphanReachable(ws: seq<World>, es: seq<Event>)
    requires es == [Tick(0, Upto(16), []), AddStatic(16), Tick(0, Upto(17), [])]
    requires |ws| == 4 && ws[0] == Start(0, Below(16), 0)
    requires ws[1] == Ticked(ws[0], 0, Upto(16), []) && ws[2] == ws[1].(s := ws[1].s.(statics := Below(17)))
    requires ws[3] == Ticked(ws[2], 0, Upto(17), [])
    ensures Run(ws, es) && Inv(ws[0]) && Orphan(ws[3], 16)
  {
    OrphanRun(ws, es);
    RunKeeps(ws, es, 2);
    SixteenRunning(ws[0]);
    assert Upto(17)[16] == 16;
    DialedWhenFull(ws[2], Upto(17), 16);
  }

  lemma OrphanRun(ws: seq<World>, es: seq<Event>)
    requires es == [Tick(0, Upto(16), []), AddStatic(16), Tick(0, Upto(17), [])]
    requires |ws| == 4 && ws[0] == Start(0, Below(16), 0)
    requires ws[1] == Ticked(ws[0], 0, Upto(16), []) && ws[2] == ws[1].(s := ws[1].s.(statics := Below(17)))
    requires ws[3] == Ticked(ws[2], 0, Upto(17), [])
    ensures Run(ws, es) && Inv(ws[0])
  {
    StartInv(0, Below(16), 0);
    UptoLists(16);
    UptoLists(17);
    SixteenRunning(ws[0]);
    BelowNext(16);
    ThreeSteps(ws, es);
  }

  lemma BelowNext(n: nat)
    ensures Below(n) + {n} == Below(n + 1)
  {
    assert Upto(n + 1) == Upto(n) + [n];
  }

  lemma ThreeSteps(ws: seq<World>, es: seq<Event>)
    requires |ws| == 4 && |es| == 3
    requires Enabled(ws[0], es[0]) && ws[1] == Next(ws[0], es[0])
    requires Enabled(ws[1], es[1]) && ws[2] == Next(ws[1], es[1])
    requires Enabled(ws[2], es[2]) && ws[3] == Next(ws[2], es[2])
    ensures Run(ws, es)
  {
  }

  /** A static node whose turn comes while all slots are taken is orphaned. */
  lemma DialedWhenFull(w: World, order: seq<Id>, id: Id)
    requires Inv(w) && w.now <= 0 && id in order && |w.running| >= MAX_ACTIVE
    requires id !in w.peers && id !in w.s.dialing && id !in w.doneAt
    ensures Orphan(Ticked(w, 0, order, []), id)
  {
    StaticDialedIff(w, 0, order, [], id);
    var ts := TickTasks(w, 0, order, []);
    var k :| 0 <= k < |ts| && ts[k] == Dial(StaticDialed, id);
    assert DialsNode(ts[k], id);
    TickOrphans(w, 0, order, [], id);
  }

  // ---------- a dial repeated at once ----------

  lemma OneRunning(w: World)
    requires w == Start(0, {7}, 0)
    ensures var t := Ticked(w, 0, [7], []);
            && t.running == [Dial(StaticDialed, 7)] && t.peers == map[] && t.now == 0 && t.s.statics == {7}
  {
    assert DynOf(map[]) == {};
    var p0 := Plan(w.s, [], 0);
    var p1 := DialEach(p0, w.peers, StaticDialed, [7]);
    assert [7][..0] == [];
    assert DialEach(p0, w.peers, StaticDialed, []) == p0;
    assert p1.tasks == [Dial(StaticDialed, 7)];
    assert DialEach(p1, w.peers, DynDialed, []) == p1;
    assert DialPlan(w.s, w.peers, 0, [7], []) == p1;
  }

  /** The loop reads its clock at 0 and dials a static node; the dial ends after
      forty seconds, and the next round, at that moment, dials it again. */
  lemma EarlyRedial(w: World, w1: World, w2: World)
    requires w == Start(0, {7}, 0) && w1 == Ticked(w, 0, [7], []) && w1.running != [] && w2 == Reported(w1, 0, [])
    ensures Inv(w) && Enabled(w, Tick(0, [7], [])) && Enabled(w1, Done(0, []))
    ensures Enabled(w2, Tick(40_000_000_000, [7], []))
    ensures Dial(StaticDialed, 7) in TickTasks(w2, 40_000_000_000, [7], [])
  {
    StartInv(0, {7}, 0);
    OneRunning(w);
    TickKeeps(w, 0, [7], []);
    DoneKeeps(w1, 0, []);
    StaticDialedIff(w2, 40_000_000_000, [7], [], 7);
  }

  // ---------- dynamic dials ----------

  lemma {:induction false} DialEachOrigin(p: Plan, peers: Conns, flag: Flag, ids: seq<Id>, id: Id)
    ensures var q := DialEach(p, peers, flag, ids);
            q.s.lookupBuf == p.s.lookupBuf && (id in q.s.dialing && id !in p.s.dialing ==> id in ids)
  {
    if ids != [] {
      DialEachOrigin(p, peers, flag, ids[..|ids| - 1], id);
    }
  }

  lemma {:induction false} LookupsOrigin(p: Plan, peers: Conns, id: Id)
    ensures var q := DialLookups(p, peers);
            id in q.s.dialing && id !in p.s.dialing ==> id in p.s.lookupBuf && q.s.dialing[id] == DynDialed
    decreases |p.s.lookupBuf|
  {
    if p.s.lookupBuf != [] && p.need > 0 {
      var q := AddDial(p, peers, DynDialed, p.s.lookupBuf[0]);
      var next := q.(s := q.s.(lookupBuf := p.s.lookupBuf[1..]));
      LookupsOrigin(next, peers, id);
      DialLookupsExtends(next, peers);
    }
  }

  /** A node read at random that a round may use: the table is bootstrapped and the
      node is within the first half of the dials wanted. */
  predicate Drawn(s: DialState, peers: Conns, random: seq<Id>, id: Id) {
    s.bootstrapped && exists i :: 0 <= i < |random| && 2 * (i + 1) <= Needed(s, peers) && random[i] == id
  }

  lemma CandidatesDrawn(s: DialState, peers: Conns, random: seq<Id>, id: Id)
    ensures id in Candidates(Needed(s, peers), s.bootstrapped, random) <==> Drawn(s, peers, random, id)
  {
    var some := Candidates(Needed(s, peers), s.bootstrapped, random);
    if Drawn(s, peers, random, id) {
      var i :| 0 <= i < |random| && 2 * (i + 1) <= Needed(s, peers) && random[i] == id;
      assert some[i] == id;
    }
    if id in some {
      var i :| 0 <= i < |some| && some[i] == id;
      assert random[i] == id && 2 * (i + 1) <= Needed(s, peers);
    }
  }

  /** The nodes a round dials: all static ones that may be dialed, all drawn ones,
      and buffered lookup results while dials are wanted; no others. */
  lemma PlanDials(s: DialState, peers: Conns, now: int, order: seq<Id>, random: seq<Id>, id: Id, p: Plan)
    requires p == DialPlan(s, peers, now, order, random) && CanDial(Expired(s, now), peers, id)
    ensures id in order || Drawn(s, peers, random, id) ==> id in p.s.dialing
    ensures id in s.lookupBuf ==> id in p.s.dialing || p.need <= 0
    ensures id in p.s.dialing ==> if id in order then p.s.dialing[id] == StaticDialed
                                  else p.s.dialing[id] == DynDialed && (Drawn(s, peers, random, id) || id in s.lookupBuf)
  {
    var p0 := Plan(Expired(s, now), [], Needed(s, peers));
    var p1 := DialEach(p0, peers, StaticDialed, order);
    var some := Candidates(Needed(s, peers), s.bootstrapped, random);
    var p2 := DialEach(p1, peers, DynDialed, some);
    CandidatesDrawn(s, peers, random, id);
    DialEachExtends(p0, peers, StaticDialed, order);
    DialEachOrigin(p0, peers, StaticDialed, order, id);
    DialEachExtends(p1, peers, DynDialed, some);
    DialEachOrigin(p1, peers, DynDialed, some, id);
    LookupsDial(p2, peers, id, p);
  }

  lemma LookupsDial(p2: Plan, peers: Conns, id: Id, p: Plan)
    requires p == DialLookups(p2, peers)
    ensures Extends(p2.s.dialing, p.s.dialing)
    ensures id in p2.s.lookupBuf && id !in peers && !Contains(p2.s.hist, id) ==> id in p.s.dialing || p.need <= 0
    ensures id in p.s.dialing && id !in p2.s.dialing ==> id in p2.s.lookupBuf && p.s.dialing[id] == DynDialed
  {
    DialLookupsExtends(p2, peers);
    LookupsOrigin(p2, peers, id);
    var k := LookupsTried(p2, peers, p);
    if id in p2.s.lookupBuf && p.need > 0 {
      assert k == |p2.s.lookupBuf| && p2.s.lookupBuf[..k] == p2.s.lookupBuf;
      var i :| 0 <= i < |p2.s.lookupBuf| && p2.s.lookupBuf[i] == id;
      assert !CanDial(p.s, peers, p2.s.lookupBuf[i]);
    }
  }

  /** In a round, a node that may be dialed is dialed: if it is static or drawn, or a
      lookup result and dials are still wanted afterwards. */
  lemma RoundDials(w: World, now: int, order: seq<Id>, random: seq<Id>, id: Id)
    requires Inv(w) && now >= w.now && id !in w.peers && id !in w.s.dialing
    requires id in w.doneAt ==> now > w.doneAt[id] + 30_000_000_000
    ensures id in order || Drawn(w.s, w.peers, random, id) ==> Dials(TickTasks(w, now, order, random), id)
    ensures id in w.s.lookupBuf ==>
            Dials(TickTasks(w, now, order, random), id) || Needed(Ticked(w, now, order, random).s, w.peers) <= 0
    ensures Dials(TickTasks(w, now, order, random), id) ==>
            id in order || Drawn(w.s, w.peers, random, id) || id in w.s.lookupBuf
  {
    DialableIff(w, now, id);
    var p := DialPlan(w.s, w.peers, now, order, random);
    PlanDials(w.s, w.peers, now, order, random, id, p);
    DialPlanKeeps(w.s, w.peers, now, order, random);
    PlanTasks(Expired(w.s, now), w.peers, p, |w.pending| + |w.running|, now, id);
  }

  /** A round's tasks dial exactly the nodes its plan has put on record. */
  lemma PlanTasks(base: DialState, peers: Conns, p: Plan, running: nat, now: int, id: Id)
    requires Collects(base, peers, p) && id !in base.dialing
    ensures Dials(WithWait(WithDiscovery(p), running, now).tasks, id) <==> id in p.s.dialing
    ensures Needed(WithWait(WithDiscovery(p), running, now).s, peers) == p.need
  {
    var ts := WithWait(WithDiscovery(p), running, now).tasks;
    if id in p.s.dialing {
      assert Dial(p.s.dialing[id], id) in p.tasks;
      TasksGrow(p, running, now, Dial(p.s.dialing[id], id));
      var k :| 0 <= k < |ts| && ts[k] == Dial(p.s.dialing[id], id);
      assert DialsNode(ts[k], id);
    }
    if Dials(ts, id) {
      var k :| 0 <= k < |ts| && DialsNode(ts[k], id);
      assert k < |p.tasks| && ts[k] == p.tasks[k];
      assert NewDial(base, peers, p.s, p.tasks[k]);
    }
  }

  /** What a discovery finds is dialed in the next round, as far as it may be and
      dials are wanted. */
  lemma ResultsDialed(w: World, index: nat, results: seq<Id>, now: int, order: seq<Id>, random: seq<Id>, id: Id, after: World)
    requires Inv(w) && index < |w.running| && w.running[index].Discover? && now >= w.now && after == Reported(w, index, results)
    requires id !in w.peers && id !in w.s.dialing && (id in w.doneAt ==> now > w.doneAt[id] + 30_000_000_000)
    requires id in results || id in w.s.lookupBuf
    ensures Dials(TickTasks(after, now, order, random), id) || Needed(Ticked(after, now, order, random).s, w.peers) <= 0
  {
    DoneKeeps(w, index, results);
    RoundDials(after, now, order, random, id);
  }

  /** A finished bootstrap opens the table: the next round draws from it for half of
      the dials wanted. */
  lemma BootstrapOpens(w: World, index: nat, results: seq<Id>, now: int, order: seq<Id>, random: seq<Id>, i: nat, after: World)
    requires Inv(w) && index < |w.running| && w.running[index] == Discover(true) && now >= w.now && after == Reported(w, index, results)
    requires i < |random| && 2 * (i + 1) <= Needed(w.s, w.peers)
    requires var id := random[i];
             id !in w.peers && id !in w.s.dialing && (id in w.doneAt ==> now > w.doneAt[id] + 30_000_000_000)
    ensures Dials(TickTasks(after, now, order, random), random[i])
  {
    DoneKeeps(w, index, results);
    assert random[i] == random[i] && 2 * (i + 1) <= Needed(after.s, after.peers);
    RoundDials(after, now, order, random, random[i]);
  }

  /** When what a discovery found does not suffice, the next round starts another. */
  lemma DiscoveryRepeats(w: World, index: nat, results: seq<Id>, now: int, order: seq<Id>, random: seq<Id>, after: World)
    requires Inv(w) && index < |w.running| && w.running[index].Discover? && after == Reported(w, index, results)
    requires var s := Ticked(after, now, order, random).s; |s.lookupBuf| < Needed(s, w.peers)
    ensures exists t :: t in TickTasks(after, now, order, random) && t.Discover?
  {
    DialPlanKeeps(after.s, after.peers, now, order, random);
    DiscoversIff(after.s, |after.pending| + |after.running|, after.peers, now, order, random);
  }

  /** A timer is set exactly when nothing runs and there is nothing else to do while
      some node waits, for as long as the first of them has to. */
  lemma WaitsIff(w: World, now: int, order: seq<Id>, random: seq<Id>)
    requires Inv(w)
    ensures var ts, hist := TickTasks(w, now, order, random), Expire(w.s.hist, now);
            && (forall i :: 0 <= i < |ts| && ts[i].Wait? ==>
                  && |ts| == 1 && w.running == [] && w.pending == [] && ts[i].duration >= 0
                  && (forall e: Past :: e in hist ==> e.exp >= now + ts[i].duration)
                  && exists e: Past :: e in hist && e.exp == now + ts[i].duration)
            && (w.running == [] && w.pending == [] && hist != [] ==> ts != [])
  {
    var p := WithDiscovery(DialPlan(w.s, w.peers, now, order, random));
    DialPlanKeeps(w.s, w.peers, now, order, random);
    ExpireExact(w.s.hist, now);
    NoWaits(Expired(w.s, now), w.peers, DialPlan(w.s, w.peers, now, order, random));
    if Expire(w.s.hist, now) != [] {
      FirstExpires(Expire(w.s.hist, now));
    }
  }

  lemma FirstExpires(hist: seq<Past>)
    requires Sorted(hist) && hist != []
    ensures hist[0] in hist && forall e: Past :: e in hist ==> e.exp >= hist[0].exp
  {
  }

  lemma NoWaits(base: DialState, peers: Conns, p: Plan)
    requires Collects(base, peers, p)
    ensures forall i :: 0 <= i < |WithDiscovery(p).tasks| ==> !WithDiscovery(p).tasks[i].Wait?
  {
    forall i | 0 <= i < |p.tasks|
      ensures p.tasks[i].Dial?
    {
      assert NewDial(base, peers, p.s, p.tasks[i]);
    }
  }
}
