/** The dial scheduler object: its fields are changed in place by its loops. */
module DialerObject {
  import opened Dialer

  /** The history, looked up by scanning. */
  method HistoryContains(h: seq<Past>, id: Id) returns (found: bool)
    ensures found <==> Contains(h, id)
  {
    for i := 0 to |h|
      invariant forall j :: 0 <= j < i ==> h[j].id != id
    {
      if h[i].id == id {
        return true;
      }
    }
    return false;
  }

  method HistoryExpire(h: seq<Past>, now: int) returns (rest: seq<Past>)
    ensures rest == Expire(h, now)
  {
    rest := h;
    while |rest| > 0 && rest[0].exp < now
      invariant Expire(rest, now) == Expire(h, now)
    {
      rest := rest[1..];
    }
  }

  method HistoryAdd(h: seq<Past>, p: Past) returns (h': seq<Past>)
    ensures h' == Add(h, p)
  {
    var i := 0;
    while i < |h| && h[i].exp <= p.exp
      invariant i <= |h|
      invariant Add(h, p) == h[..i] + Add(h[i..], p)
    {
      assert h[..i + 1] == h[..i] + [h[i]];
      i := i + 1;
    }
    h' := h[..i] + [p] + h[i..];
  }

  function DynIn(m: Conns, ids: set<Id>): set<Id> {
    set id: Id | id in ids && id in m && m[id] == DynDialed
  }

  lemma DynInMore(m: Conns, ids: set<Id>, id: Id)
    requires id in m && id !in ids
    ensures |DynIn(m, ids + {id})| == |DynIn(m, ids)| + if m[id] == DynDialed then 1 else 0
  {
    if m[id] == DynDialed {
      assert DynIn(m, ids + {id}) == DynIn(m, ids) + {id};
    } else {
      assert DynIn(m, ids + {id}) == DynIn(m, ids);
    }
  }

  method CountDynamic(m: Conns) returns (n: nat)
    ensures n == |DynOf(m)|
  {
    n := 0;
    var todo := m.Keys;
    ghost var seen: set<Id> := {};
    while todo != {}
      invariant todo + seen == m.Keys && todo !! seen
      invariant n == |DynIn(m, seen)|
    {
      var id :| id in todo;
      DynInMore(m, seen, id);
      todo, seen := todo - {id}, seen + {id};
      if m[id] == DynDialed {
        n := n + 1;
      }
    }
    assert seen == m.Keys;
    assert DynIn(m, m.Keys) == DynOf(m);
  }

  /** The members of a set in some order. */
  method Listed(ids: set<Id>) returns (order: seq<Id>)
    ensures Lists(order, ids)
  {
    order := [];
    var todo := ids;
    while todo != {}
      invariant todo <= ids
      invariant forall id: Id :: id in order <==> id in ids && id !in todo
      invariant forall i, j :: 0 <= i < j < |order| ==> order[i] != order[j]
    {
      var id :| id in todo;
      todo := todo - {id};
      order := order + [id];
    }
  }

  class Dialstate {
    const maxDynDials: nat
    var lookupRunning: bool
    var bootstrapped: bool
    var dialing: Conns
    var lookupBuf: seq<Id>
    var statics: set<Id>
    var hist: seq<Past>

    function View(): DialState
      reads this
    {
      DialState(maxDynDials, lookupRunning, bootstrapped, dialing, lookupBuf, statics, hist)
    }

    constructor (statics: set<Id>, maxDyn: nat)
      ensures View() == Start(maxDyn, statics, 0).s
    {
      this.maxDynDials, this.statics := maxDyn, statics;
      lookupRunning, bootstrapped, dialing, lookupBuf, hist := false, false, map[], [], [];
    }

    method AddStatic(id: Id)
      modifies this
      ensures View() == old(View()).(statics := old(statics) + {id})
    {
      statics := statics + {id};
    }

    /** `addDial` of newTasks. */
    method TryDial(peers: Conns, flag: Flag, id: Id, tasks: seq<Task>, need: int) returns (tasks': seq<Task>, need': int)
      modifies this
      ensures Plan(View(), tasks', need') == AddDial(Plan(old(View()), tasks, need), peers, flag, id)
    {
      tasks', need' := tasks, need;
      var known := HistoryContains(hist, id);
      if id in dialing || id in peers || known {
        return;
      }
      dialing := dialing[id := flag];
      tasks' := tasks + [Dial(flag, id)];
      if flag == DynDialed {
        need' := need - 1;
      }
    }

    method TryEach(peers: Conns, flag: Flag, ids: seq<Id>, tasks: seq<Task>, need: int) returns (tasks': seq<Task>, need': int)
      modifies this
      ensures Plan(View(), tasks', need') == DialEach(Plan(old(View()), tasks, need), peers, flag, ids)
    {
      tasks', need' := tasks, need;
      for i := 0 to |ids|
        invariant Plan(View(), tasks', need') == DialEach(Plan(old(View()), tasks, need), peers, flag, ids[..i])
      {
        assert ids[..i + 1][..i] == ids[..i];
        tasks', need' := TryDial(peers, flag, ids[i], tasks', need');
      }
      assert ids[..|ids|] == ids;
    }

    /** Tries buffered lookup results from the front and drops the tried ones. */
    method TryLookups(peers: Conns, tasks: seq<Task>, need: int) returns (tasks': seq<Task>, need': int)
      modifies this
      ensures Plan(View(), tasks', need') == DialLookups(Plan(old(View()), tasks, need), peers)
    {
      tasks', need' := tasks, need;
      while lookupBuf != [] && need' > 0
        invariant DialLookups(Plan(View(), tasks', need'), peers) == DialLookups(Plan(old(View()), tasks, need), peers)
        decreases |lookupBuf|
      {
        var id := lookupBuf[0];
        tasks', need' := TryDial(peers, DynDialed, id, tasks', need');
        lookupBuf := lookupBuf[1..];
      }
    }

    method WantedDials(peers: Conns) returns (need: int)
      ensures need == Needed(View(), peers)
    {
      var connected := CountDynamic(peers);
      var underWay := CountDynamic(dialing);
      need := maxDynDials - connected - underWay;
    }

    method CollectDials(peers: Conns, now: int, random: seq<Id>) returns (tasks: seq<Task>, need: int, ghost order: seq<Id>)
      modifies this
      ensures Lists(order, old(statics))
      ensures Plan(View(), tasks, need) == DialPlan(old(View()), peers, now, order, random)
    {
      need := WantedDials(peers);
      hist := HistoryExpire(hist, now);
      var listed := Listed(statics);
      order := listed;
      var some := Candidates(need, bootstrapped, random);
      tasks, need := TryEach(peers, StaticDialed, listed, [], need);
      tasks, need := TryEach(peers, DynDialed, some, tasks, need);
      tasks, need := TryLookups(peers, tasks, need);
    }

    /** `newTasks`, for some order of the static nodes. */
    method NewTasks(running: nat, peers: Conns, now: int, random: seq<Id>) returns (tasks: seq<Task>, ghost order: seq<Id>)
      modifies this
      ensures Lists(order, old(statics))
      ensures var p := Dialer.NewTasks(old(View()), running, peers, now, order, random);
              View() == p.s && tasks == p.tasks
    {
      var need;
      tasks, need, order := CollectDials(peers, now, random);
      if |lookupBuf| < need && !lookupRunning {
        lookupRunning := true;
        tasks := tasks + [Discover(!bootstrapped)];
      }
      if running == 0 && |tasks| == 0 && |hist| > 0 {
        tasks := tasks + [Wait(hist[0].exp - now)];
      }
    }

    method TaskDone(t: Task, now: int, results: seq<Id>)
      modifies this
      ensures View() == Dialer.TaskDone(old(View()), t, now, results)
    {
      match t
      case Dial(_, id) =>
        hist := HistoryAdd(hist, Past(id, now + EXPIRATION));
        dialing := dialing - {id};
      case Discover(bootstrap) =>
        if bootstrap {
          bootstrapped := true;
        }
        lookupRunning := false;
        lookupBuf := lookupBuf + results;
      case Wait(_) =>
    }
  }
}
