/**
 The coherence protocol as a step machine: nodes with private, non-coherent caches over one shared
 memory; threads that log the lines they dirty and publish the logs at a release; consumers (the cache
 agent of a node, or a thread of that node helping it) that invalidate what other nodes published.
 The memory and the caches hold whole lines; a store changes one word of a line.
 */
module Protocol {
  import opened Clocks
  import opened Broadcast

  type Line = nat                 // 0 stands for "no line", as in recent_cl
  type Data = map<nat, int>       // the words of a line; a missing word is 0

  datatype Copy = Copy(data: Data, dirty: bool)

  // ---- consumers: whoever holds the head mutex of a node ----

  datatype Who = Agent | Helper(t: nat)

  // Looking: about to take the head of the ring.  Processing: invalidating the lines of the head log,
  // `done` of them so far.  Leaving: out of the loop, clock not yet stored.  Stored: clock stored.
  datatype Phase = Looking | Processing(done: set<Line>) | Leaving | Stored

  // clk is the local variable of that name in CacheAgent::run and help_consume
  datatype Consumer = Free | Busy(who: Who, ring: nat, clk: nat, phase: Phase)
  {
    /** The thread that holds the head mutex, if it is a thread. */
    ghost predicate HeldBy(t: nat) {
      Busy? && who == Helper(t)
    }
  }

  datatype Node = Node(cache: map<Line, Copy>, heads: seq<nat>, clock: Clock, cons: Consumer)

  // ---- threads ----

  datatype Pc =
    | Idle
    // write_to_log: `wrote` is logged and written back; `next` is the line whose log_store found the
    // table full (0 in a release)
    | Flushing(rel: bool, wrote: set<Line>, next: Line)
    | Reserving(rel: bool, idx: nat, next: Line)    // tail.fetch_add done, idx.store not yet
    | Publishing(rel: bool, idx: nat, next: Line)   // idx.store done, table not yet cleared
    | Assigning(idx: nat)                           // table cleared, own clock component not yet assigned
    | Inserting(next: Line)                         // table cleared, second insert of log_store
    // thread_acquire on location loc: help_consume has finished the nodes in `done`, having last read
    // `waited`; `byRef` says that the location clock is read through a reference
    | Acquiring(loc: nat, byRef: bool, target: Clock, waited: Clock, done: set<nat>)
    | Merging(loc: nat, byRef: bool, target: Clock, waited: Clock, j: nat)

  // `seen` is a history variable: the clock components this thread has really waited for
  datatype Thread = Thread(node: nat, dirty: set<Line>, recent: Line, clock: Clock, seen: Clock, pc: Pc)

  // `latest` is a history variable: the content that a single coherent memory would have
  datatype State = State(
    mem: map<Line, Data>, latest: map<Line, Data>,
    nodes: seq<Node>, threads: seq<Thread>,
    rings: seq<seq<Slot<set<Line>>>>, locs: seq<Clock>)
  {
    ghost predicate WF() {
      && |rings| == |nodes|
      && (forall n | 0 <= n < |nodes| :: |nodes[n].heads| == |nodes| && |nodes[n].clock| == |nodes|)
      && (forall t | 0 <= t < |threads| :: ThreadWF(threads[t]))
      && (forall x | 0 <= x < |locs| :: |locs[x]| == |nodes|)
    }

    ghost predicate ThreadWF(th: Thread) {
      && th.node < |nodes| && |th.clock| == |nodes| && |th.seen| == |nodes|
      && (th.pc.Acquiring? ==> |th.pc.target| == |nodes| && |th.pc.waited| == |nodes| && th.pc.loc < |locs|)
      && (th.pc.Merging? ==> |th.pc.target| == |nodes| && |th.pc.waited| == |nodes| && th.pc.loc < |locs|
                             && th.pc.j <= |nodes|)
    }
  }

  /** The same nodes, threads and locations, all clocks of the right length. */
  ghost predicate SameShape(s: State, s': State) {
    s'.WF() && |s'.nodes| == |s.nodes| && |s'.threads| == |s.threads| && |s'.locs| == |s.locs|
  }

  // what a cache may do at any time
  datatype CacheStep = Prefetch(l: Line) | Evict(l: Line)

  datatype ThreadStep =
    | Load(l: Line, w: nat, v: int)
    | Store(l: Line, w: nat, v: int)
    | Overflow(l: Line)
    | BeginRelease
    | Writeback(l: Line)
    | Reserve
    | Commit
    | ClearTable
    | AssignClock
    | Publish(x: nat, i: nat, merge: bool)
    | BeginAcquire(x: nat, byRef: bool)
    | CheckNode(i: nat)
    | BeginMerge
    | MergeElement

  datatype ConsumerStep =
    | LockHead(who: Who, i: nat)
    | TakeHead
    | Invalidate(l: Line)
    | ConsumeHead
    | Leave
    | StoreClock
    | UnlockHead

  datatype Step =
    | ByCache(n: nat, c: CacheStep)
    | ByThread(t: nat, a: ThreadStep)
    | ByConsumer(n: nat, b: ConsumerStep)

  // ---- reading lines ----

  function At(m: map<Line, Data>, l: Line): Data {
    if l in m then m[l] else map[]
  }

  function Word(d: Data, w: nat): int {
    if w in d then d[w] else 0
  }

  /** What an access by node n to line l works on: the cached copy, or else memory. */
  function Visible(s: State, n: nat, l: Line): Data
    requires n < |s.nodes|
  {
    if l in s.nodes[n].cache then s.nodes[n].cache[l].data else At(s.mem, l)
  }

  // ---- what is not yet published, and not yet written back ----

  function Pending(th: Thread): set<Line> {
    if th.pc.Publishing? || th.pc.Assigning? then {} else th.dirty
  }

  function Unwritten(th: Thread): set<Line> {
    if th.pc.Flushing? then th.dirty - th.pc.wrote
    else if th.pc.Reserving? then {}
    else Pending(th)
  }

  // ---- the race-freedom guard on loads and stores ----

  ghost predicate PendingElsewhere(s: State, n: nat, l: Line) {
    exists t | 0 <= t < |s.threads| :: s.threads[t].node != n && l in Pending(s.threads[t])
  }

  ghost predicate Holds(r: seq<Slot<set<Line>>>, k: nat, l: Line)
    requires k < |r|
  {
    r[k].Committed? && l in r[k].log.items
  }

  /** Every published log of another node that names the line is one this thread has waited for. */
  ghost predicate Covered(s: State, t: nat, l: Line)
    requires s.WF() && t < |s.threads|
  {
    forall i, k: nat | 0 <= i < |s.nodes| && i != s.threads[t].node && k < |s.rings[i]| && Holds(s.rings[i], k, l) ::
      k < s.threads[t].seen[i]
  }

  /** Line race freedom between nodes; threads of one node share a coherent cache and are not restricted. */
  ghost predicate RaceFree(s: State, t: nat, l: Line)
    requires s.WF() && t < |s.threads|
  {
    !PendingElsewhere(s, s.threads[t].node, l) && Covered(s, t, l)
  }

  // ---- steps ----

  function WithThread(s: State, t: nat, th: Thread): State
    requires t < |s.threads|
  {
    s.(threads := s.threads[t := th])
  }

  function WithNode(s: State, n: nat, nd: Node): State
    requires n < |s.nodes|
  {
    s.(nodes := s.nodes[n := nd])
  }

  /** The clock component i that thread_acquire reads through its argument right now. */
  function Wanted(s: State, t: nat, i: nat): nat
    requires s.WF() && t < |s.threads| && i < |s.nodes|
    requires s.threads[t].pc.Acquiring? || s.threads[t].pc.Merging?
  {
    var pc := s.threads[t].pc;
    if pc.byRef then s.locs[pc.loc][i] else pc.target[i]
  }

  ghost predicate CachePossible(s: State, n: nat, c: CacheStep)
    requires s.WF() && n < |s.nodes|
  {
    match c
    case Prefetch(l) => l !in s.nodes[n].cache
    case Evict(l) => l in s.nodes[n].cache
  }

  ghost predicate ThreadPossible(s: State, t: nat, a: ThreadStep)
    requires s.WF() && t < |s.threads|
  {
    var th := s.threads[t];
    match a
    case Load(l, w, v) => th.pc.Idle? && v == Word(Visible(s, th.node, l), w)
    case Store(l, w, v) => l != 0 && (th.pc.Idle? || th.pc == Inserting(l))
    case Overflow(l) => l != 0 && th.pc.Idle? && l != th.recent
    case BeginRelease => th.pc.Idle? && th.recent != 0
    case Writeback(l) => th.pc.Flushing? && l in th.dirty - th.pc.wrote
    case Reserve => th.pc.Flushing? && th.dirty <= th.pc.wrote
    case Commit => th.pc.Reserving? && th.pc.idx < |s.rings[th.node]|
    case ClearTable => th.pc.Publishing?
    case AssignClock => th.pc.Assigning?
    case Publish(x, i, merge) => x < |s.locs| && i < |s.nodes| && th.pc.Idle? && th.recent == 0
    case BeginAcquire(x, byRef) => x < |s.locs| && th.pc.Idle?
    case CheckNode(i) =>
      i < |s.nodes| && th.pc.Acquiring? && i != th.node && Wanted(s, t, i) <= s.nodes[th.node].clock[i]
    case BeginMerge =>
      th.pc.Acquiring? && !s.nodes[th.node].cons.HeldBy(t)
      && (forall i: nat | i < |s.nodes| && i != th.node :: i in th.pc.done)
    case MergeElement => th.pc.Merging?
  }

  ghost predicate ConsumerPossible(s: State, n: nat, b: ConsumerStep)
    requires s.WF() && n < |s.nodes|
  {
    var cons := s.nodes[n].cons;
    match b
    case LockHead(who, i) =>
      i < |s.nodes| && i != n && cons.Free?
      && (who.Helper? ==> who.t < |s.threads| && s.threads[who.t].node == n && s.threads[who.t].pc.Acquiring?)
    case TakeHead => HeadReady(s, n) && cons.phase.Looking? && (cons.who.Helper? ==> HelperWants(s, n))
    case Invalidate(l) => HeadReady(s, n) && cons.phase.Processing? && l in HeadLog(s, n).items
    case ConsumeHead => HeadReady(s, n) && cons.phase.Processing? && HeadLog(s, n).items <= cons.phase.done
    case Leave =>
      cons.Busy? && cons.phase.Looking? && (cons.who.Helper? ==> HelperReady(s, n) && !HelperWants(s, n))
    case StoreClock => cons.Busy? && cons.phase.Leaving? && cons.ring < |s.nodes|
    case UnlockHead => cons.Busy? && cons.phase.Stored?
  }

  /** What the code, the caches included, can do next; without the race-freedom guard. */
  ghost predicate Possible(s: State, step: Step)
    requires s.WF()
  {
    match step
    case ByCache(n, c) => n < |s.nodes| && CachePossible(s, n, c)
    case ByThread(t, a) => t < |s.threads| && ThreadPossible(s, t, a)
    case ByConsumer(n, b) => n < |s.nodes| && ConsumerPossible(s, n, b)
  }

  /** take_head on the ring being consumed returns an entry. */
  ghost predicate HeadReady(s: State, n: nat)
    requires s.WF() && n < |s.nodes|
  {
    && s.nodes[n].cons.Busy? && s.nodes[n].cons.ring < |s.nodes|
    && s.nodes[n].heads[s.nodes[n].cons.ring] < |s.rings[s.nodes[n].cons.ring]|
    && s.rings[s.nodes[n].cons.ring][s.nodes[n].heads[s.nodes[n].cons.ring]].Committed?
  }

  ghost function HeadLog(s: State, n: nat): Log<set<Line>>
    requires s.WF() && n < |s.nodes| && HeadReady(s, n)
  {
    s.rings[s.nodes[n].cons.ring][s.nodes[n].heads[s.nodes[n].cons.ring]].log
  }

  ghost predicate HelperReady(s: State, n: nat)
    requires s.WF() && n < |s.nodes| && s.nodes[n].cons.Busy? && s.nodes[n].cons.who.Helper?
  {
    var t := s.nodes[n].cons.who.t;
    s.nodes[n].cons.ring < |s.nodes| && t < |s.threads| && s.threads[t].pc.Acquiring?
  }

  /** The loop condition of help_consume, `clk < target[i]`. */
  ghost predicate HelperWants(s: State, n: nat)
    requires s.WF() && n < |s.nodes| && s.nodes[n].cons.Busy? && s.nodes[n].cons.who.Helper?
  {
    HelperReady(s, n) && s.nodes[n].cons.clk < Wanted(s, s.nodes[n].cons.who.t, s.nodes[n].cons.ring)
  }

  /** The race-freedom assumption on the program: it constrains loads and stores only. */
  ghost predicate Guarded(s: State, step: Step)
    requires s.WF() && Possible(s, step)
  {
    step.ByThread? && (step.a.Load? || step.a.Store?) ==> RaceFree(s, step.t, step.a.l)
  }

  ghost function DoPrefetch(s: State, n: nat, l: Line): (s': State)
    requires s.WF() && n < |s.nodes|
    ensures SameShape(s, s')
  {
    WithNode(s, n, s.nodes[n].(cache := s.nodes[n].cache[l := Copy(At(s.mem, l), false)]))
  }

  /** Dropping a copy, by eviction or by clflushopt, writes it to memory first when it is dirty. */
  ghost function Drop(s: State, n: nat, l: Line): (s': State)
    requires s.WF() && n < |s.nodes|
    ensures SameShape(s, s')
  {
    var nd := s.nodes[n];
    WithNode(
      if l in nd.cache && nd.cache[l].dirty then s.(mem := s.mem[l := nd.cache[l].data]) else s,
      n, nd.(cache := nd.cache - {l}))
  }

  ghost function DoLoad(s: State, t: nat, l: Line): (s': State)
    requires s.WF() && t < |s.threads|
    ensures SameShape(s, s')
  {
    var n := s.threads[t].node;
    if l in s.nodes[n].cache then s else DoPrefetch(s, n, l)
  }

  /** log_store followed by the write of one word into the (possibly fetched) line. */
  ghost function DoStore(s: State, t: nat, l: Line, w: nat, v: int): (s': State)
    requires s.WF() && t < |s.threads|
    ensures SameShape(s, s')
  {
    var th := s.threads[t];
    var nd := s.nodes[th.node];
    var copy := Copy(Visible(s, th.node, l)[w := v], true);
    var dirty := if th.pc.Idle? && l == th.recent then th.dirty else th.dirty + {l};
    var s1 := WithThread(s, t, th.(dirty := dirty, recent := l, pc := Idle));
    WithNode(s1, th.node, nd.(cache := nd.cache[l := copy])).(latest := s.latest[l := At(s.latest, l)[w := v]])
  }

  /** clwb: the copy stays and becomes clean. */
  ghost function DoWriteback(s: State, t: nat, l: Line): (s': State)
    requires s.WF() && t < |s.threads| && s.threads[t].pc.Flushing?
    ensures SameShape(s, s')
  {
    var th := s.threads[t];
    var nd := s.nodes[th.node];
    var s1 := WithThread(s, t, th.(pc := th.pc.(wrote := th.pc.wrote + {l})));
    if l in nd.cache && nd.cache[l].dirty then
      WithNode(s1, th.node, nd.(cache := nd.cache[l := nd.cache[l].(dirty := false)]))
        .(mem := s.mem[l := nd.cache[l].data])
    else s1
  }

  ghost function DoReserve(s: State, t: nat): (s': State)
    requires s.WF() && t < |s.threads| && s.threads[t].pc.Flushing?
    ensures SameShape(s, s')
  {
    var th := s.threads[t];
    var r := s.rings[th.node];
    WithThread(s, t, th.(pc := Reserving(th.pc.rel, |r|, th.pc.next))).(rings := s.rings[th.node := r + [Reserved]])
  }

  ghost function DoCommit(s: State, t: nat): (s': State)
    requires s.WF() && t < |s.threads| && s.threads[t].pc.Reserving?
    requires s.threads[t].pc.idx < |s.rings[s.threads[t].node]|
    ensures SameShape(s, s')
  {
    var th := s.threads[t];
    var r := s.rings[th.node];
    WithThread(s, t, th.(pc := Publishing(th.pc.rel, th.pc.idx, th.pc.next)))
      .(rings := s.rings[th.node := r[th.pc.idx := Committed(Log(th.dirty, th.pc.rel))]])
  }

  ghost function DoClearTable(s: State, t: nat): (s': State)
    requires s.WF() && t < |s.threads| && s.threads[t].pc.Publishing?
    ensures SameShape(s, s')
  {
    var th := s.threads[t];
    WithThread(s, t, th.(dirty := {}, pc := if th.pc.rel then Assigning(th.pc.idx) else Inserting(th.pc.next)))
  }

  ghost function DoAssignClock(s: State, t: nat): (s': State)
    requires s.WF() && t < |s.threads| && s.threads[t].pc.Assigning?
    ensures SameShape(s, s')
  {
    var th := s.threads[t];
    WithThread(s, t, th.(clock := th.clock[th.node := th.pc.idx + 1], pc := Idle))
  }

  /** One element of `inner->clock = thread_clock`, or of `inner->clock.merge(thread_clock)`. */
  ghost function DoPublish(s: State, t: nat, x: nat, i: nat, merge: bool): (s': State)
    requires s.WF() && t < |s.threads| && x < |s.locs| && i < |s.nodes|
    ensures SameShape(s, s')
  {
    var c: nat := if merge then Max(s.locs[x][i], s.threads[t].clock[i]) else s.threads[t].clock[i];
    var loc: Clock := s.locs[x][i := c];
    s.(locs := s.locs[x := loc])
  }

  ghost function DoBeginAcquire(s: State, t: nat, x: nat, byRef: bool): (s': State)
    requires s.WF() && t < |s.threads| && x < |s.locs|
    ensures SameShape(s, s')
  {
    WithThread(s, t, s.threads[t].(pc := Acquiring(x, byRef, s.locs[x], Zero(|s.nodes|), {})))
  }

  function NodeDone(s: State, t: nat, i: nat): Thread
    requires s.WF() && t < |s.threads| && i < |s.nodes| && s.threads[t].pc.Acquiring?
  {
    var th := s.threads[t];
    th.(pc := th.pc.(waited := th.pc.waited[i := Wanted(s, t, i)], done := th.pc.done + {i}))
  }

  ghost function DoBeginMerge(s: State, t: nat): (s': State)
    requires s.WF() && t < |s.threads| && s.threads[t].pc.Acquiring?
    ensures SameShape(s, s')
  {
    var pc := s.threads[t].pc;
    WithThread(s, t, s.threads[t].(pc := Merging(pc.loc, pc.byRef, pc.target, pc.waited, 0)))
  }

  /** One iteration of VectorClock::merge on the thread clock; leaving the loop when all are merged. */
  ghost function DoMergeElement(s: State, t: nat): (s': State)
    requires s.WF() && t < |s.threads| && s.threads[t].pc.Merging?
    ensures SameShape(s, s')
  {
    var th := s.threads[t];
    var j := th.pc.j;
    if j >= |s.nodes| then WithThread(s, t, th.(pc := Idle))
    else WithThread(s, t, th.(
      clock := th.clock[j := Max(th.clock[j], Wanted(s, t, j))],
      seen := if j == th.node then th.seen else th.seen[j := Max(th.seen[j], th.pc.waited[j])],
      pc := th.pc.(j := j + 1)))
  }

  ghost function DoLockHead(s: State, n: nat, who: Who, i: nat): (s': State)
    requires s.WF() && n < |s.nodes| && i < |s.nodes|
    ensures SameShape(s, s')
  {
    var clk := if who.Agent? then 0 else s.nodes[n].clock[i];
    WithNode(s, n, s.nodes[n].(cons := Busy(who, i, clk, Looking)))
  }

  ghost function DoTakeHead(s: State, n: nat): (s': State)
    requires s.WF() && n < |s.nodes| && HeadReady(s, n)
    ensures SameShape(s, s')
  {
    var cons := s.nodes[n].cons;
    var clk := if HeadLog(s, n).rel then s.nodes[n].heads[cons.ring] + 1 else cons.clk;
    WithNode(s, n, s.nodes[n].(cons := cons.(clk := clk, phase := Processing({}))))
  }

  ghost function DoInvalidate(s: State, n: nat, l: Line): (s': State)
    requires s.WF() && n < |s.nodes| && s.nodes[n].cons.Busy? && s.nodes[n].cons.phase.Processing?
    ensures SameShape(s, s')
  {
    var cons := s.nodes[n].cons;
    var s1 := Drop(s, n, l);
    WithNode(s1, n, s1.nodes[n].(cons := cons.(phase := Processing(cons.phase.done + {l}))))
  }

  ghost function DoConsumeHead(s: State, n: nat): (s': State)
    requires s.WF() && n < |s.nodes| && s.nodes[n].cons.Busy? && s.nodes[n].cons.ring < |s.nodes|
    ensures SameShape(s, s')
  {
    var nd := s.nodes[n];
    var i := nd.cons.ring;
    WithNode(s, n, nd.(heads := nd.heads[i := nd.heads[i] + 1], cons := nd.cons.(phase := Looking)))
  }

  ghost function DoLeave(s: State, n: nat): (s': State)
    requires s.WF() && n < |s.nodes| && s.nodes[n].cons.Busy?
    requires s.nodes[n].cons.who.Helper? ==> HelperReady(s, n)
    ensures SameShape(s, s')
  {
    var nd := s.nodes[n];
    var s1 := if nd.cons.who.Agent? then s else WithThread(s, nd.cons.who.t, NodeDone(s, nd.cons.who.t, nd.cons.ring));
    WithNode(s1, n, nd.(cons := nd.cons.(phase := Leaving)))
  }

  /** update_clock: the agent stores only a clock it has set, a helper always stores. */
  ghost function DoStoreClock(s: State, n: nat): (s': State)
    requires s.WF() && n < |s.nodes| && s.nodes[n].cons.Busy? && s.nodes[n].cons.ring < |s.nodes|
    ensures SameShape(s, s')
  {
    var nd := s.nodes[n];
    var clock := if nd.cons.who.Agent? && nd.cons.clk == 0 then nd.clock else nd.clock[nd.cons.ring := nd.cons.clk];
    WithNode(s, n, nd.(clock := clock, cons := nd.cons.(phase := Stored)))
  }

  ghost function ApplyCache(s: State, n: nat, c: CacheStep): (s': State)
    requires s.WF() && n < |s.nodes| && CachePossible(s, n, c)
    ensures SameShape(s, s')
  {
    match c
    case Prefetch(l) => DoPrefetch(s, n, l)
    case Evict(l) => Drop(s, n, l)
  }

  ghost function ApplyThread(s: State, t: nat, a: ThreadStep): (s': State)
    requires s.WF() && t < |s.threads| && ThreadPossible(s, t, a)
    ensures SameShape(s, s')
  {
    var th := s.threads[t];
    match a
    case Load(l, w, v) => DoLoad(s, t, l)
    case Store(l, w, v) => DoStore(s, t, l, w, v)
    case Overflow(l) => WithThread(s, t, th.(recent := l, pc := Flushing(false, {}, l)))
    case BeginRelease => WithThread(s, t, th.(recent := 0, pc := Flushing(true, {}, 0)))
    case Writeback(l) => DoWriteback(s, t, l)
    case Reserve => DoReserve(s, t)
    case Commit => DoCommit(s, t)
    case ClearTable => DoClearTable(s, t)
    case AssignClock => DoAssignClock(s, t)
    case Publish(x, i, merge) => DoPublish(s, t, x, i, merge)
    case BeginAcquire(x, byRef) => DoBeginAcquire(s, t, x, byRef)
    case CheckNode(i) => WithThread(s, t, NodeDone(s, t, i))
    case BeginMerge => DoBeginMerge(s, t)
    case MergeElement => DoMergeElement(s, t)
  }

  ghost function ApplyConsumer(s: State, n: nat, b: ConsumerStep): (s': State)
    requires s.WF() && n < |s.nodes| && ConsumerPossible(s, n, b)
    ensures SameShape(s, s')
  {
    match b
    case LockHead(who, i) => DoLockHead(s, n, who, i)
    case TakeHead => DoTakeHead(s, n)
    case Invalidate(l) => DoInvalidate(s, n, l)
    case ConsumeHead => DoConsumeHead(s, n)
    case Leave => DoLeave(s, n)
    case StoreClock => DoStoreClock(s, n)
    case UnlockHead => WithNode(s, n, s.nodes[n].(cons := Free))
  }

  ghost function Apply(s: State, step: Step): (s': State)
    requires s.WF() && Possible(s, step)
    ensures SameShape(s, s')
  {
    match step
    case ByCache(n, c) => ApplyCache(s, n, c)
    case ByThread(t, a) => ApplyThread(s, t, a)
    case ByConsumer(n, b) => ApplyConsumer(s, n, b)
  }
}
