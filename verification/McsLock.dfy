/**
 The queue lock: a linked queue of allocated nodes with explicit next pointers, local spinning, and nodes
 that go back to the allocator.  Every shared load, store, exchange and compare-exchange is a step.
 */
module McsLock {

  type NodeId = nat

  datatype Ref = Null | To(n: NodeId)

  datatype Pc =
    | Out
    // lock
    | Made(n: NodeId)                       // node allocated
    | Cleared(n: NodeId)                    // next = null
    | Ready(n: NodeId)                      // locked = true
    | Linking(n: NodeId, pred: NodeId)      // tail exchanged, predecessor->next not yet stored
    | Spinning(n: NodeId)
    | Entering(n: NodeId)                   // granted, owner not yet stored
    | Inside(n: NodeId)
    // try_lock, after it has seen an empty tail
    | TryMade(n: NodeId)
    | TryCleared(n: NodeId)
    | TryReady(n: NodeId)
    // unlock
    | Leaving(n: NodeId)                    // owner read
    | SawNull(n: NodeId)                    // next was null
    | Waiting(n: NodeId)                    // compare-exchange failed, spinning on next
    | Passing(n: NodeId, succ: NodeId)      // next read
    | Dropping(n: NodeId)                   // node to be deallocated

  // queue (who holds or waits, in the order of the exchanges), arrived and departed are history variables
  datatype State = State(
    tail: Ref, owner: Ref, next: map<NodeId, Ref>, locked: map<NodeId, bool>, live: set<NodeId>,
    pcs: seq<Pc>, queue: seq<nat>, arrived: seq<nat>, departed: seq<nat>)

  datatype Action =
    | BeginLock(n: NodeId) | ClearNext | SetLocked | Exchange | Link | Spin | SetOwner
    | BeginTry(n: NodeId) | TryExchange
    | BeginUnlock | LoadNext | CasTail | SpinNext | Pass | Deallocate

  function Next(s: State, n: NodeId): Ref {
    if n in s.next then s.next[n] else Null
  }

  function IsLocked(s: State, n: NodeId): bool {
    n in s.locked && s.locked[n]
  }

  ghost predicate Possible(s: State, t: nat, a: Action) {
    && t < |s.pcs|
    && match a
       case BeginLock(n) => s.pcs[t].Out? && n !in s.live
       case BeginTry(n) => s.pcs[t].Out? && n !in s.live && s.tail == Null
       case ClearNext => s.pcs[t].Made? || s.pcs[t].TryMade?
       case SetLocked => s.pcs[t].Cleared? || s.pcs[t].TryCleared?
       case Exchange => s.pcs[t].Ready?
       case TryExchange => s.pcs[t].TryReady?
       case Link => s.pcs[t].Linking?
       case Spin => s.pcs[t].Spinning?
       case SetOwner => s.pcs[t].Entering?
       case BeginUnlock => s.pcs[t].Inside? && s.owner.To?
       case LoadNext => s.pcs[t].Leaving?
       case CasTail => s.pcs[t].SawNull?
       case SpinNext => s.pcs[t].Waiting?
       case Pass => s.pcs[t].Passing?
       case Deallocate => s.pcs[t].Dropping?
  }

  function WithPc(s: State, t: nat, pc: Pc): State
    requires t < |s.pcs|
  {
    s.(pcs := s.pcs[t := pc])
  }

  /** Thread t becomes the last in the queue with node n. */
  function Join(s: State, t: nat, n: NodeId): State
    requires t < |s.pcs|
  {
    s.(tail := To(n), queue := s.queue + [t], arrived := s.arrived + [t])
  }

  /** The head of the queue leaves it. */
  function Quit(s: State, t: nat): State {
    s.(queue := if s.queue == [] then [] else s.queue[1..], departed := s.departed + [t])
  }

  ghost function Apply(s: State, t: nat, a: Action): State
    requires Possible(s, t, a)
  {
    var pc := s.pcs[t];
    match a
    case BeginLock(n) => WithPc(s, t, Made(n)).(live := s.live + {n})
    case BeginTry(n) => WithPc(s, t, TryMade(n)).(live := s.live + {n})
    case ClearNext => WithPc(s, t, if pc.Made? then Cleared(pc.n) else TryCleared(pc.n)).(next := s.next[pc.n := Null])
    case SetLocked =>
      WithPc(s, t, if pc.Cleared? then Ready(pc.n) else TryReady(pc.n)).(locked := s.locked[pc.n := true])
    case Exchange => Join(WithPc(s, t, if s.tail.Null? then Entering(pc.n) else Linking(pc.n, s.tail.n)), t, pc.n)
    case TryExchange =>
      if s.tail.Null? then Join(WithPc(s, t, Entering(pc.n)), t, pc.n) else WithPc(s, t, Dropping(pc.n))
    case Link => WithPc(s, t, Spinning(pc.n)).(next := s.next[pc.pred := To(pc.n)])
    case Spin => if IsLocked(s, pc.n) then s else WithPc(s, t, Entering(pc.n))
    case SetOwner => WithPc(s, t, Inside(pc.n)).(owner := To(pc.n))
    case BeginUnlock => WithPc(s, t, Leaving(s.owner.n))
    case LoadNext => WithPc(s, t, if Next(s, pc.n).Null? then SawNull(pc.n) else Passing(pc.n, Next(s, pc.n).n))
    case CasTail =>
      if s.tail == To(pc.n) then Quit(WithPc(s, t, Dropping(pc.n)), t).(tail := Null) else WithPc(s, t, Waiting(pc.n))
    case SpinNext => if Next(s, pc.n).Null? then s else WithPc(s, t, Passing(pc.n, Next(s, pc.n).n))
    case Pass => Quit(WithPc(s, t, Dropping(pc.n)), t).(locked := s.locked[pc.succ := false])
    case Deallocate => WithPc(s, t, Out).(live := s.live - {pc.n})
  }

  // ---- the invariant ----

  /** From the exchange of the tail until the lock is passed on. */
  ghost predicate Queued(pc: Pc) {
    || pc.Linking? || pc.Spinning? || pc.Entering? || pc.Inside?
    || pc.Leaving? || pc.SawNull? || pc.Waiting? || pc.Passing?
  }

  /** Past the store of owner and not yet past the hand-over. */
  ghost predicate Holding(pc: Pc) {
    pc.Inside? || pc.Leaving? || pc.SawNull? || pc.Waiting? || pc.Passing?
  }

  /** Threads keep node ids apart, and only the queue order decides who is where. */
  ghost predicate NodesApart(s: State) {
    && (forall t: nat | t < |s.pcs| && !s.pcs[t].Out? :: s.pcs[t].n in s.live)
    && (forall t: nat, u: nat | t < |s.pcs| && u < |s.pcs| && t != u && !s.pcs[t].Out? && !s.pcs[u].Out? ::
          s.pcs[t].n != s.pcs[u].n)
  }

  ghost predicate QueueOk(s: State) {
    && (forall k: nat | k < |s.queue| :: s.queue[k] < |s.pcs| && Queued(s.pcs[s.queue[k]]))
    && (forall j: nat, k: nat | j < k < |s.queue| :: s.queue[j] != s.queue[k])
    && (forall t: nat | t < |s.pcs| && Queued(s.pcs[t]) :: t in s.queue)
    && s.arrived == s.departed + s.queue
  }

  ghost function NodeAt(s: State, k: nat): NodeId
    requires k < |s.queue| && s.queue[k] < |s.pcs| && Queued(s.pcs[s.queue[k]])
  {
    s.pcs[s.queue[k]].n
  }

  /** A waiter at position k > 0: announced or linked to its predecessor, and still locked. */
  ghost predicate WaiterOk(s: State, k: nat)
    requires QueueOk(s) && 0 < k < |s.queue|
  {
    var pc := s.pcs[s.queue[k]];
    && IsLocked(s, pc.n)
    && (pc.Linking? || pc.Spinning?)
    && (pc.Linking? ==> pc.pred == NodeAt(s, k - 1) && Next(s, pc.pred) == Null)
    && (pc.Spinning? ==> Next(s, NodeAt(s, k - 1)) == To(pc.n))
  }

  ghost predicate HeadOk(s: State)
    requires QueueOk(s) && s.queue != []
  {
    var pc := s.pcs[s.queue[0]];
    && !pc.Linking?
    && (pc.Spinning? ==> !IsLocked(s, pc.n))
    && (Holding(pc) ==> s.owner == To(pc.n))
    && (pc.Waiting? || pc.Passing? ==> |s.queue| > 1)
    && (pc.Passing? ==> s.pcs[s.queue[1]].Spinning? && pc.succ == NodeAt(s, 1))
  }

  ghost predicate TailOk(s: State)
    requires QueueOk(s)
  {
    if s.queue == [] then s.tail == Null
    else s.tail == To(NodeAt(s, |s.queue| - 1)) && Next(s, NodeAt(s, |s.queue| - 1)) == Null
  }

  /** A node that is prepared but not yet in the queue. */
  ghost predicate PreparedOk(s: State, t: nat)
    requires t < |s.pcs|
  {
    var pc := s.pcs[t];
    && (pc.Cleared? || pc.Ready? || pc.TryCleared? || pc.TryReady? ==> Next(s, pc.n) == Null)
    && (pc.Ready? || pc.TryReady? ==> IsLocked(s, pc.n))
  }

  ghost predicate Inv(s: State) {
    && NodesApart(s) && QueueOk(s) && TailOk(s)
    && (s.queue != [] ==> HeadOk(s))
    && (forall k: nat | 0 < k < |s.queue| :: WaiterOk(s, k))
    && (forall t: nat | t < |s.pcs| :: PreparedOk(s, t))
  }

  // ---- who can be in the queue ----

  /** A thread that is granted, holding or handing over is the head of the queue. */
  lemma GrantedIsHead(s: State, t: nat)
    requires Inv(s) && t < |s.pcs| && (s.pcs[t].Entering? || Holding(s.pcs[t]))
    ensures s.queue != [] && s.queue[0] == t
  {
    var k: nat :| k < |s.queue| && s.queue[k] == t;
    assert 0 < k ==> WaiterOk(s, k);
  }

  lemma LinkingIsWaiter(s: State, t: nat) returns (k: nat)
    requires Inv(s) && t < |s.pcs| && s.pcs[t].Linking?
    ensures 0 < k < |s.queue| && s.queue[k] == t && WaiterOk(s, k)
  {
    k :| k < |s.queue| && s.queue[k] == t;
  }

  // ---- every step keeps the invariant ----

  lemma OthersStay(s: State, t: nat, a: Action)
    requires Possible(s, t, a)
    ensures |Apply(s, t, a).pcs| == |s.pcs| && Apply(s, t, a).pcs == s.pcs[t := Apply(s, t, a).pcs[t]]
  {
  }

  lemma OwnNode(s: State, t: nat, a: Action)
    requires Possible(s, t, a) && !a.BeginLock? && !a.BeginTry? && !a.Deallocate?
    requires a.BeginUnlock? ==> s.owner == To(s.pcs[t].n)
    ensures !s.pcs[t].Out? && !Apply(s, t, a).pcs[t].Out?
    ensures Apply(s, t, a).pcs[t].n == s.pcs[t].n && Apply(s, t, a).live == s.live
  {
  }

  /** A step changes nobody else's node, and its own only by allocating a fresh one. */
  lemma StepNode(s: State, t: nat, a: Action)
    requires Inv(s) && Possible(s, t, a)
    ensures var s' := Apply(s, t, a);
            && |s'.pcs| == |s.pcs| && s'.pcs == s.pcs[t := s'.pcs[t]]
            && (a.BeginLock? || a.BeginTry? ==> !s'.pcs[t].Out? && s'.pcs[t].n == a.n && s'.live == s.live + {a.n})
            && (a.Deallocate? ==> s'.pcs[t].Out? && !s.pcs[t].Out? && s'.live == s.live - {s.pcs[t].n})
            && (!a.BeginLock? && !a.BeginTry? && !a.Deallocate? ==>
                  !s.pcs[t].Out? && !s'.pcs[t].Out? && s'.pcs[t].n == s.pcs[t].n && s'.live == s.live)
  {
    OthersStay(s, t, a);
    if a.BeginUnlock? {
      GrantedIsHead(s, t);
    }
    if !a.BeginLock? && !a.BeginTry? && !a.Deallocate? {
      OwnNode(s, t, a);
    }
  }

  lemma StepNodes(s: State, t: nat, a: Action)
    requires Inv(s) && Possible(s, t, a)
    ensures NodesApart(Apply(s, t, a))
  {
    StepNode(s, t, a);
    var s' := Apply(s, t, a);
    forall u: nat | u < |s.pcs| && !s'.pcs[u].Out? ensures s'.pcs[u].n in s'.live {
      assert u != t ==> s'.pcs[u] == s.pcs[u];
    }
    forall u: nat, v: nat | u < |s.pcs| && v < |s.pcs| && u != v && !s'.pcs[u].Out? && !s'.pcs[v].Out?
      ensures s'.pcs[u].n != s'.pcs[v].n
    {
      assert u != t ==> s'.pcs[u] == s.pcs[u];
      assert v != t ==> s'.pcs[v] == s.pcs[v];
    }
  }

  ghost predicate ChangesQueue(s: State, t: nat, a: Action)
    requires Possible(s, t, a)
  {
    a.Exchange? || (a.TryExchange? && s.tail.Null?) || (a.CasTail? && s.tail == To(s.pcs[t].n)) || a.Pass?
  }

  lemma QuietFrame(s: State, t: nat, a: Action)
    requires Possible(s, t, a) && !ChangesQueue(s, t, a)
    ensures var s' := Apply(s, t, a);
            && s'.queue == s.queue && s'.arrived == s.arrived && s'.departed == s.departed && s'.tail == s.tail
            && forall u: nat | u < |s.pcs| && u != t :: s'.pcs[u] == s.pcs[u]
  {
  }

  /** Steps that keep the queue also keep the node of a queued thread. */
  lemma QuietPc(s: State, t: nat, a: Action)
    requires Inv(s) && Possible(s, t, a) && !ChangesQueue(s, t, a)
    ensures Queued(Apply(s, t, a).pcs[t]) == Queued(s.pcs[t])
    ensures Queued(s.pcs[t]) ==> Apply(s, t, a).pcs[t].n == s.pcs[t].n
    ensures Apply(s, t, a).queue == s.queue
    ensures Apply(s, t, a).arrived == s.arrived && Apply(s, t, a).departed == s.departed
    ensures Apply(s, t, a).tail == s.tail
    ensures forall u: nat | u < |s.pcs| && u != t :: Apply(s, t, a).pcs[u] == s.pcs[u]
  {
    QuietFrame(s, t, a);
    if a.BeginUnlock? {
      GrantedIsHead(s, t);
    } else {
      QuietOwn(s, t, a);
    }
  }

  lemma QuietOwn(s: State, t: nat, a: Action)
    requires Possible(s, t, a) && !ChangesQueue(s, t, a) && !a.BeginUnlock?
    ensures Queued(Apply(s, t, a).pcs[t]) == Queued(s.pcs[t])
    ensures Queued(s.pcs[t]) ==> Apply(s, t, a).pcs[t].n == s.pcs[t].n
  {
  }

  lemma QuietQueue(s: State, t: nat, a: Action)
    requires Inv(s) && Possible(s, t, a) && !ChangesQueue(s, t, a)
    ensures QueueOk(Apply(s, t, a))
    ensures forall k: nat | k < |s.queue| :: NodeAt(Apply(s, t, a), k) == NodeAt(s, k)
  {
    QuietPc(s, t, a);
    SameQueue(s, Apply(s, t, a), t);
  }

  lemma SameQueue(s: State, s': State, t: nat)
    requires QueueOk(s) && t < |s.pcs| == |s'.pcs|
    requires Queued(s'.pcs[t]) == Queued(s.pcs[t]) && (Queued(s.pcs[t]) ==> s'.pcs[t].n == s.pcs[t].n)
    requires s'.queue == s.queue && s'.arrived == s.arrived && s'.departed == s.departed
    requires forall u: nat | u < |s.pcs| && u != t :: s'.pcs[u] == s.pcs[u]
    ensures QueueOk(s')
    ensures forall k: nat | k < |s.queue| :: NodeAt(s', k) == NodeAt(s, k)
  {
  }

  /** The memory a quiet step writes: its own unqueued node, or the link to itself. */
  lemma QuietMemory(s: State, t: nat, a: Action, n: NodeId)
    requires Inv(s) && Possible(s, t, a) && !ChangesQueue(s, t, a)
    ensures || Next(Apply(s, t, a), n) == Next(s, n)
            || (a.ClearNext? && n == s.pcs[t].n) || (a.Link? && n == s.pcs[t].pred)
    ensures IsLocked(Apply(s, t, a), n) == IsLocked(s, n) || (a.SetLocked? && n == s.pcs[t].n)
    ensures a.Link? ==> Next(Apply(s, t, a), s.pcs[t].pred) == To(s.pcs[t].n)
  {
  }

  lemma QuietWaiter(s: State, t: nat, a: Action, k: nat)
    requires Inv(s) && Possible(s, t, a) && !ChangesQueue(s, t, a) && 0 < k < |s.queue|
    requires QueueOk(Apply(s, t, a))
    ensures WaiterOk(Apply(s, t, a), k)
  {
    assert WaiterOk(s, k);
    QuietPc(s, t, a);
    QuietMemory(s, t, a, NodeAt(s, k));
    QuietMemory(s, t, a, NodeAt(s, k - 1));
    if a.Link? {
      LinkWaiter(s, t, k);
    }
  }

  lemma LinkWaiter(s: State, t: nat, k: nat)
    requires Inv(s) && Possible(s, t, Link) && 0 < k < |s.queue| && QueueOk(Apply(s, t, Link))
    ensures WaiterOk(Apply(s, t, Link), k)
  {
    assert WaiterOk(s, k);
    var j := LinkingIsWaiter(s, t);
    QuietMemory(s, t, Link, NodeAt(s, k));
    QuietMemory(s, t, Link, NodeAt(s, k - 1));
  }

  lemma QuietHead(s: State, t: nat, a: Action)
    requires Inv(s) && Possible(s, t, a) && !ChangesQueue(s, t, a) && s.queue != []
    requires QueueOk(Apply(s, t, a))
    ensures HeadOk(Apply(s, t, a))
  {
    QuietPc(s, t, a);
    QuietMemory(s, t, a, NodeAt(s, 0));
    if s.pcs[t].Entering? || Holding(s.pcs[t]) {
      GrantedIsHead(s, t);
    }
    if |s.queue| > 1 {
      assert WaiterOk(s, 1);
    }
  }

  lemma QuietTail(s: State, t: nat, a: Action)
    requires Inv(s) && Possible(s, t, a) && !ChangesQueue(s, t, a)
    requires QueueOk(Apply(s, t, a))
    ensures TailOk(Apply(s, t, a))
  {
    QuietPc(s, t, a);
    if s.queue != [] {
      QuietMemory(s, t, a, NodeAt(s, |s.queue| - 1));
      if a.Link? {
        var j := LinkingIsWaiter(s, t);
      }
    }
  }

  lemma OwnPrepared(s: State, t: nat, a: Action)
    requires Possible(s, t, a) && PreparedOk(s, t)
    ensures PreparedOk(Apply(s, t, a), t)
  {
  }

  lemma QuietPrepared(s: State, t: nat, a: Action, u: nat)
    requires Inv(s) && Possible(s, t, a) && !ChangesQueue(s, t, a) && u < |s.pcs|
    ensures PreparedOk(Apply(s, t, a), u)
  {
    assert PreparedOk(s, u) && PreparedOk(s, t);
    if u == t {
      OwnPrepared(s, t, a);
    } else if !s.pcs[u].Out? {
      QuietPc(s, t, a);
      QuietMemory(s, t, a, s.pcs[u].n);
      if a.Link? {
        var k := LinkingIsWaiter(s, t);
      }
    }
  }

  /** Steps that leave the queue as it is keep its links. */
  lemma QuietLinks(s: State, t: nat, a: Action)
    requires Inv(s) && Possible(s, t, a) && !ChangesQueue(s, t, a)
    ensures Inv(Apply(s, t, a))
  {
    var s' := Apply(s, t, a);
    QuietQueue(s, t, a);
    QuietPc(s, t, a);
    StepNodes(s, t, a);
    QuietTail(s, t, a);
    if s.queue != [] {
      QuietHead(s, t, a);
    }
    forall k: nat | 0 < k < |s.queue| ensures WaiterOk(s', k) {
      QuietWaiter(s, t, a, k);
    }
    forall u: nat | u < |s.pcs| ensures PreparedOk(s', u) {
      QuietPrepared(s, t, a, u);
    }
  }

  // ---- joining the queue ----

  ghost predicate Joins(s: State, t: nat, a: Action)
    requires Possible(s, t, a)
  {
    a.Exchange? || (a.TryExchange? && s.tail.Null?)
  }

  lemma JoinShape(s: State, t: nat, a: Action)
    requires Possible(s, t, a) && Joins(s, t, a)
    ensures var s' := Apply(s, t, a);
            && s'.queue == s.queue + [t] && |s'.pcs| == |s.pcs| && s'.arrived == s.arrived + [t]
            && s'.departed == s.departed && !Queued(s.pcs[t]) && Queued(s'.pcs[t])
            && forall u: nat | u < |s.pcs| && u != t :: s'.pcs[u] == s.pcs[u]
  {
  }

  lemma LongerQueue(s: State, t: nat, s': State)
    requires QueueOk(s) && t < |s.pcs| == |s'.pcs| && !Queued(s.pcs[t]) && Queued(s'.pcs[t])
    requires s'.queue == s.queue + [t] && s'.arrived == s.arrived + [t] && s'.departed == s.departed
    requires forall u: nat | u < |s.pcs| && u != t :: s'.pcs[u] == s.pcs[u]
    ensures QueueOk(s')
    ensures forall k: nat | k < |s.queue| :: s.queue[k] != t
  {
    forall u: nat | u < |s.pcs| && Queued(s'.pcs[u]) ensures u in s'.queue {
      if u == t {
        assert s'.queue[|s.queue|] == t;
      } else {
        assert u in s.queue;
      }
    }
  }

  lemma JoinQueue(s: State, t: nat, a: Action)
    requires Inv(s) && Possible(s, t, a) && Joins(s, t, a)
    ensures QueueOk(Apply(s, t, a))
    ensures forall k: nat | k < |s.queue| ::
              s.queue[k] != t && Apply(s, t, a).pcs[s.queue[k]] == s.pcs[s.queue[k]]
  {
    JoinShape(s, t, a);
    LongerQueue(s, t, Apply(s, t, a));
  }

  lemma JoinWaiter(s: State, t: nat, a: Action, k: nat)
    requires Inv(s) && Possible(s, t, a) && Joins(s, t, a) && QueueOk(Apply(s, t, a)) && 0 < k <= |s.queue|
    ensures WaiterOk(Apply(s, t, a), k)
  {
    JoinQueue(s, t, a);
    assert PreparedOk(s, t);
    if k < |s.queue| {
      assert WaiterOk(s, k);
    }
  }

  lemma JoinEnds(s: State, t: nat, a: Action)
    requires Inv(s) && Possible(s, t, a) && Joins(s, t, a) && QueueOk(Apply(s, t, a))
    ensures TailOk(Apply(s, t, a)) && HeadOk(Apply(s, t, a))
  {
    JoinQueue(s, t, a);
    assert PreparedOk(s, t);
  }

  lemma JoinKeeps(s: State, t: nat, a: Action)
    requires Inv(s) && Possible(s, t, a) && Joins(s, t, a)
    ensures Inv(Apply(s, t, a))
  {
    var s' := Apply(s, t, a);
    JoinQueue(s, t, a);
    JoinEnds(s, t, a);
    StepNodes(s, t, a);
    forall k: nat | 0 < k < |s'.queue| ensures WaiterOk(s', k) {
      JoinWaiter(s, t, a, k);
    }
    forall u: nat | u < |s.pcs| ensures PreparedOk(s', u) {
      assert PreparedOk(s, u);
    }
  }

  // ---- leaving the queue ----

  ghost predicate Quits(s: State, t: nat, a: Action)
    requires Possible(s, t, a)
  {
    (a.CasTail? && s.tail == To(s.pcs[t].n)) || a.Pass?
  }

  lemma QuitterIsHead(s: State, t: nat, a: Action)
    requires Inv(s) && Possible(s, t, a) && Quits(s, t, a)
    ensures s.queue != [] && s.queue[0] == t
    ensures a.CasTail? ==> |s.queue| == 1
    ensures a.Pass? ==> |s.queue| > 1
  {
    GrantedIsHead(s, t);
    assert |s.queue| > 1 ==> s.queue[|s.queue| - 1] != t;
  }

  lemma QuitShape(s: State, t: nat, a: Action)
    requires Inv(s) && Possible(s, t, a) && Quits(s, t, a)
    ensures var s' := Apply(s, t, a);
            && s.queue != [] && s'.queue == s.queue[1..] && s'.pcs == s.pcs[t := Dropping(s.pcs[t].n)]
            && s'.arrived == s.arrived && s'.departed == s.departed + [t]
  {
    QuitterIsHead(s, t, a);
  }

  lemma QuitQueue(s: State, t: nat, s': State)
    requires QueueOk(s) && s.queue != [] && s.queue[0] == t
    requires s'.queue == s.queue[1..] && s'.pcs == s.pcs[t := Dropping(s.pcs[t].n)]
    requires s'.arrived == s.arrived && s'.departed == s.departed + [t]
    ensures QueueOk(s')
    ensures forall k: nat | 0 < k < |s.queue| :: s'.pcs[s.queue[k]] == s.pcs[s.queue[k]]
  {
    DropFirst(s.departed, s.queue);
    assert forall k: nat | k < |s'.queue| :: s'.queue[k] == s.queue[k + 1];
    forall u: nat | u < |s.pcs| && u != t && Queued(s.pcs[u]) ensures u in s'.queue {
      var k: nat :| k < |s.queue| && s.queue[k] == u;
      assert s'.queue[k - 1] == u;
    }
  }

  lemma DropFirst(departed: seq<nat>, queue: seq<nat>)
    requires queue != []
    ensures departed + [queue[0]] + queue[1..] == departed + queue
  {
    assert queue == [queue[0]] + queue[1..];
  }

  lemma QuitWaiter(s: State, t: nat, k: nat)
    requires Inv(s) && Possible(s, t, Pass) && QueueOk(Apply(s, t, Pass)) && 0 < k < |Apply(s, t, Pass).queue|
    ensures WaiterOk(Apply(s, t, Pass), k)
  {
    var s' := Apply(s, t, Pass);
    QuitterIsHead(s, t, Pass);
    assert HeadOk(s) && s.pcs[t].succ == NodeAt(s, 1);
    assert s.queue[1] != s.queue[k + 1] && WaiterOk(s, k + 1);
    WaiterMoves(s, s', t, k);
  }

  /** A waiter that is not the one being granted moves up one place. */
  lemma WaiterMoves(s: State, s': State, t: nat, k: nat)
    requires QueueOk(s) && QueueOk(s') && s.queue != [] && s.queue[0] == t && s'.queue == s.queue[1..]
    requires t < |s.pcs| && s'.pcs == s.pcs[t := Dropping(s.pcs[t].n)] && s'.next == s.next
    requires 0 < k < |s'.queue| && WaiterOk(s, k + 1)
    requires IsLocked(s', s.pcs[s.queue[k + 1]].n)
    ensures WaiterOk(s', k)
  {
    assert s'.queue[k] == s.queue[k + 1] && s'.queue[k - 1] == s.queue[k];
    assert s.queue[0] != s.queue[k + 1] && s.queue[0] != s.queue[k];
  }

  lemma QuitTail(s: State, t: nat, a: Action)
    requires Inv(s) && Possible(s, t, a) && Quits(s, t, a) && QueueOk(Apply(s, t, a))
    ensures TailOk(Apply(s, t, a))
  {
    var s' := Apply(s, t, a);
    QuitterIsHead(s, t, a);
    if a.Pass? {
      assert s'.queue[|s'.queue| - 1] == s.queue[|s.queue| - 1];
    }
  }

  lemma QuitHead(s: State, t: nat)
    requires Inv(s) && Possible(s, t, Pass) && QueueOk(Apply(s, t, Pass))
    ensures Apply(s, t, Pass).queue != [] && HeadOk(Apply(s, t, Pass))
  {
    var s' := Apply(s, t, Pass);
    QuitterIsHead(s, t, Pass);
    assert s'.queue[0] == s.queue[1] && s.queue[1] != t;
    assert WaiterOk(s, 1) && HeadOk(s);
  }

  lemma QuitKeeps(s: State, t: nat, a: Action)
    requires Inv(s) && Possible(s, t, a) && Quits(s, t, a)
    ensures Inv(Apply(s, t, a))
  {
    var s' := Apply(s, t, a);
    QuitterIsHead(s, t, a);
    QuitShape(s, t, a);
    QuitQueue(s, t, s');
    StepNodes(s, t, a);
    QuitTail(s, t, a);
    if a.Pass? {
      QuitHead(s, t);
      forall k: nat | 0 < k < |s'.queue| ensures WaiterOk(s', k) {
        QuitWaiter(s, t, k);
      }
    }
    forall u: nat | u < |s.pcs| ensures PreparedOk(s', u) {
      assert PreparedOk(s, u);
    }
  }

  lemma StepKeepsInv(s: State, t: nat, a: Action)
    requires Inv(s) && Possible(s, t, a)
    ensures Inv(Apply(s, t, a))
  {
    if !ChangesQueue(s, t, a) {
      QuietLinks(s, t, a);
    } else if a.Exchange? || a.TryExchange? {
      JoinKeeps(s, t, a);
    } else {
      QuitKeeps(s, t, a);
    }
  }
}
