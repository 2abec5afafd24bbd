/** The dial scheduler of p2p/dial.go and the task list of the server loop in
    p2p/server.go, as values. */
module Dialer {

  type Id = nat

  /** How a connection came about; `trusted` plays no part in dialing. */
  datatype Flag = DynDialed | StaticDialed | Inbound

  /** Nanoseconds. */
  const EXPIRATION := 30_000_000_000
  const MAX_ACTIVE := 16

  datatype Past = Past(id: Id, exp: int)

  datatype Task = Dial(flag: Flag, id: Id) | Discover(bootstrap: bool) | Wait(duration: int)

  type Conns = map<Id, Flag>

  /** `hist` is the expiry heap, in order of expiry. */
  datatype DialState = DialState(maxDyn: nat, lookupRunning: bool, bootstrapped: bool, dialing: Conns,
                                 lookupBuf: seq<Id>, statics: set<Id>, hist: seq<Past>)

  // ---------- history ----------

  predicate Contains(h: seq<Past>, id: Id) {
    exists i :: 0 <= i < |h| && h[i].id == id
  }

  function Add(h: seq<Past>, p: Past): seq<Past> {
    if h == [] || p.exp < h[0].exp then [p] + h else [h[0]] + Add(h[1..], p)
  }

  function Expire(h: seq<Past>, now: int): seq<Past> {
    if h != [] && h[0].exp < now then Expire(h[1..], now) else h
  }

  // ---------- newTasks ----------

  /** Tasks being collected, and how many dynamic dials are still wanted. */
  datatype Plan = Plan(s: DialState, tasks: seq<Task>, need: int)

  predicate CanDial(s: DialState, peers: Conns, id: Id) {
    id !in s.dialing && id !in peers && !Contains(s.hist, id)
  }

  function AddDial(p: Plan, peers: Conns, flag: Flag, id: Id): Plan {
    if CanDial(p.s, peers, id)
    then Plan(p.s.(dialing := p.s.dialing[id := flag]), p.tasks + [Dial(flag, id)],
              if flag == DynDialed then p.need - 1 else p.need)
    else p
  }

  function DialEach(p: Plan, peers: Conns, flag: Flag, ids: seq<Id>): Plan {
    if ids == [] then p else AddDial(DialEach(p, peers, flag, ids[..|ids| - 1]), peers, flag, ids[|ids| - 1])
  }

  /** Lookup results are tried while dials are wanted; tried ones are dropped. */
  function DialLookups(p: Plan, peers: Conns): Plan
    decreases |p.s.lookupBuf|
  {
    if p.s.lookupBuf == [] || p.need <= 0 then p
    else
      var q := AddDial(p, peers, DynDialed, p.s.lookupBuf[0]);
      DialLookups(q.(s := q.s.(lookupBuf := p.s.lookupBuf[1..])), peers)
  }

  function DynOf(m: Conns): set<Id> {
    set id: Id | id in m && m[id] == DynDialed
  }

  function Needed(s: DialState, peers: Conns): int {
    s.maxDyn - |DynOf(peers)| - |DynOf(s.dialing)|
  }

  /** Random table nodes fill half of what is needed. */
  function Candidates(need: int, bootstrapped: bool, random: seq<Id>): seq<Id> {
    if need / 2 > 0 && bootstrapped then random[..if need / 2 < |random| then need / 2 else |random|] else []
  }

  function DialPlan(s: DialState, peers: Conns, now: int, order: seq<Id>, random: seq<Id>): Plan {
    var need := Needed(s, peers);
    var p0 := Plan(s.(hist := Expire(s.hist, now)), [], need);
    var p1 := DialEach(p0, peers, StaticDialed, order);
    DialLookups(DialEach(p1, peers, DynDialed, Candidates(need, s.bootstrapped, random)), peers)
  }

  function WithDiscovery(p: Plan): Plan {
    if |p.s.lookupBuf| < p.need && !p.s.lookupRunning
    then p.(s := p.s.(lookupRunning := true), tasks := p.tasks + [Discover(!p.s.bootstrapped)])
    else p
  }

  function WithWait(p: Plan, running: nat, now: int): Plan {
    if running == 0 && p.tasks == [] && p.s.hist != [] then p.(tasks := [Wait(p.s.hist[0].exp - now)]) else p
  }

  /** `newTasks`. The order in which the static nodes come up and the random nodes
      read from the table are given. */
  function NewTasks(s: DialState, running: nat, peers: Conns, now: int, order: seq<Id>, random: seq<Id>): Plan {
    WithWait(WithDiscovery(DialPlan(s, peers, now, order, random)), running, now)
  }

  /** `taskDone`. */
  function TaskDone(s: DialState, t: Task, now: int, results: seq<Id>): DialState {
    match t
    case Dial(_, id) => s.(hist := Add(s.hist, Past(id, now + EXPIRATION)), dialing := s.dialing - {id})
    case Discover(bootstrap) =>
      s.(bootstrapped := s.bootstrapped || bootstrap, lookupRunning := false, lookupBuf := s.lookupBuf + results)
    case Wait(_) => s
  }

  // ---------- the server loop ----------

  /** `scheduleTasks`: moves tasks into the free slots. With no free slot the new
      tasks are not even kept pending. */
  function Schedule(running: seq<Task>, pending: seq<Task>, added: seq<Task>): (seq<Task>, seq<Task>) {
    var pt := pending + added;
    var free := MAX_ACTIVE - |running|;
    var start := if |pt| < free then |pt| else free;
    if start > 0 then (running + pt[..start], pt[start..]) else (running, pending)
  }

  /** The server between two events. `now` is the clock the loop read last;
      `doneAt` remembers the clock at which each node's last dial was reported. */
  datatype World = World(s: DialState, peers: Conns, running: seq<Task>, pending: seq<Task>, now: int, doneAt: map<Id, int>)

  datatype Event =
    | Tick(now: int, order: seq<Id>, random: seq<Id>)
    | Done(index: nat, results: seq<Id>)
    | AddPeer(id: Id, flag: Flag)
    | DelPeer(id: Id)
    | AddStatic(id: Id)

  /** Each member once. */
  ghost predicate Lists(order: seq<Id>, ids: set<Id>) {
    && (forall id: Id :: id in order <==> id in ids)
    && forall i, j :: 0 <= i < j < |order| ==> order[i] != order[j]
  }

  /** When an event can happen: the clock does not go back, only a running task
      reports, and a dialed connection is added while its dial task runs. */
  ghost predicate Enabled(w: World, e: Event) {
    match e
    case Tick(now, order, _) => now >= w.now && Lists(order, w.s.statics)
    case Done(index, _) => index < |w.running|
    case AddPeer(id, flag) => id !in w.peers && (flag == Inbound || Dial(flag, id) in w.running)
    case DelPeer(id) => id in w.peers
    case AddStatic(_) => true
  }

  function Without(ts: seq<Task>, i: nat): seq<Task>
    requires i < |ts|
  {
    ts[..i] + ts[i + 1..]
  }

  function Ticked(w: World, now: int, order: seq<Id>, random: seq<Id>): World {
    var p := NewTasks(w.s, |w.pending| + |w.running|, w.peers, now, order, random);
    var (running, pending) := Schedule(w.running, w.pending, p.tasks);
    w.(s := p.s, running := running, pending := pending, now := now)
  }

  function Reported(w: World, index: nat, results: seq<Id>): World
    requires index < |w.running|
  {
    var t := w.running[index];
    w.(s := TaskDone(w.s, t, w.now, results), running := Without(w.running, index),
       doneAt := if t.Dial? then w.doneAt[t.id := w.now] else w.doneAt)
  }

  function Next(w: World, e: Event): World
    requires Enabled(w, e)
  {
    match e
    case Tick(now, order, random) => Ticked(w, now, order, random)
    case Done(index, results) => Reported(w, index, results)
    case AddPeer(id, flag) => w.(peers := w.peers[id := flag])
    case DelPeer(id) => w.(peers := w.peers - {id})
    case AddStatic(id) => w.(s := w.s.(statics := w.s.statics + {id}))
  }

  function Start(maxDyn: nat, statics: set<Id>, now: int): World {
    World(DialState(maxDyn, false, false, map[], [], statics, []), map[], [], [], now, map[])
  }
}
