/** The queue lock over whole runs: exclusion, order of service, the owner field, and safe reuse of nodes. */
module McsTheorems {
  import opened McsLock

  datatype Event = Event(t: nat, a: Action)

  ghost predicate Init(s: State) {
    && s.tail == Null && s.live == {} && s.queue == [] && s.arrived == [] && s.departed == []
    && forall t: nat | t < |s.pcs| :: s.pcs[t] == Out
  }

  ghost predicate MovesAt(states: seq<State>, events: seq<Event>, k: nat)
    requires |states| == |events| + 1 && k < |events|
  {
    Possible(states[k], events[k].t, events[k].a) && states[k + 1] == Apply(states[k], events[k].t, events[k].a)
  }

  ghost predicate IsRun(states: seq<State>, events: seq<Event>) {
    |states| == |events| + 1 && Init(states[0]) && forall k: nat | k < |events| :: MovesAt(states, events, k)
  }

  lemma {:induction false} RunInv(states: seq<State>, events: seq<Event>, k: nat)
    requires IsRun(states, events) && k < |states|
    ensures Inv(states[k])
  {
    if k > 0 {
      RunInv(states, events, k - 1);
      assert MovesAt(states, events, k - 1);
      StepKeepsInv(states[k - 1], events[k - 1].t, events[k - 1].a);
    }
  }

  /** From its grant until it has passed the lock on, a thread excludes all others, and from the store of
      owner on, owner names its node. */
  lemma MutualExclusion(states: seq<State>, events: seq<Event>, k: nat, t: nat)
    requires IsRun(states, events) && k < |states| && t < |states[k].pcs|
    requires states[k].pcs[t].Entering? || Holding(states[k].pcs[t])
    ensures forall u: nat | u < |states[k].pcs| && u != t ::
              !states[k].pcs[u].Entering? && !Holding(states[k].pcs[u])
    ensures Holding(states[k].pcs[t]) ==> states[k].owner == To(states[k].pcs[t].n)
  {
    RunInv(states, events, k);
    GrantedIsHead(states[k], t);
    forall u: nat | u < |states[k].pcs| && u != t
      ensures !states[k].pcs[u].Entering? && !Holding(states[k].pcs[u])
    {
      if states[k].pcs[u].Entering? || Holding(states[k].pcs[u]) {
        GrantedIsHead(states[k], u);
      }
    }
  }

  // ---- order of service, told from the events alone ----

  /** Who exchanged the tail, or won the compare-exchange of try_lock, in this order. */
  ghost function Arrivals(states: seq<State>, events: seq<Event>): seq<nat>
    requires |events| <= |states|
  {
    if events == [] then []
    else
      var n := |events| - 1;
      var e := events[n];
      Arrivals(states, events[..n]) + if e.a.Exchange? || (e.a.TryExchange? && states[n].tail.Null?) then [e.t] else []
  }

  /** Who gave the lock up, in this order. */
  ghost function Departures(states: seq<State>, events: seq<Event>): seq<nat>
    requires |events| <= |states|
  {
    if events == [] then []
    else
      var n := |events| - 1;
      var e := events[n];
      var gone := e.a.Pass? || (e.a.CasTail? && e.t < |states[n].pcs| && states[n].pcs[e.t].SawNull?
                                && states[n].tail == To(states[n].pcs[e.t].n));
      Departures(states, events[..n]) + if gone then [e.t] else []
  }

  lemma {:induction false} RunOrder(states: seq<State>, events: seq<Event>, k: nat)
    requires IsRun(states, events) && k < |states|
    ensures states[k].arrived == Arrivals(states, events[..k])
    ensures states[k].departed == Departures(states, events[..k])
  {
    if k > 0 {
      RunOrder(states, events, k - 1);
      assert MovesAt(states, events, k - 1);
      assert events[..k][..k - 1] == events[..k - 1];
    }
  }

  /** First come, first served: departures are the beginning of the arrivals, and whoever holds the lock is
      the first arrival that has not departed. */
  lemma ServedInOrder(states: seq<State>, events: seq<Event>, k: nat)
    requires IsRun(states, events) && k < |states|
    ensures Departures(states, events[..k]) <= Arrivals(states, events[..k])
    ensures forall t: nat | t < |states[k].pcs| && (states[k].pcs[t].Entering? || Holding(states[k].pcs[t])) ::
              |Departures(states, events[..k])| < |Arrivals(states, events[..k])|
              && Arrivals(states, events[..k])[|Departures(states, events[..k])|] == t
  {
    RunInv(states, events, k);
    RunOrder(states, events, k);
    forall t: nat | t < |states[k].pcs| && (states[k].pcs[t].Entering? || Holding(states[k].pcs[t]))
      ensures states[k].queue != [] && states[k].queue[0] == t
    {
      GrantedIsHead(states[k], t);
    }
  }

  // ---- nodes ----

  /** The node whose fields a step reads or writes. */
  ghost function Touched(s: State, t: nat, a: Action): set<NodeId>
    requires Possible(s, t, a)
  {
    if a.Link? then {s.pcs[t].pred}
    else if a.Pass? then {s.pcs[t].succ}
    else if a.ClearNext? || a.SetLocked? || a.Spin? || a.LoadNext? || a.SpinNext? || a.Deallocate? then {s.pcs[t].n}
    else {}
  }

  /** Every access is to a node that is allocated at that moment. */
  lemma AccessesAreLive(states: seq<State>, events: seq<Event>, k: nat)
    requires IsRun(states, events) && k < |events| && Possible(states[k], events[k].t, events[k].a)
    ensures Touched(states[k], events[k].t, events[k].a) <= states[k].live
  {
    RunInv(states, events, k);
    var s, t, a := states[k], events[k].t, events[k].a;
    if a.Link? {
      var j := LinkingIsWaiter(s, t);
    } else if a.Pass? {
      GrantedIsHead(s, t);
    }
  }

  /** A thread that drops its node is not in the queue, and so is its node. */
  lemma DroppedIsNotQueued(s: State, t: nat, k: nat)
    requires Inv(s) && t < |s.pcs| && s.pcs[t].Dropping? && k < |s.queue|
    ensures NodeAt(s, k) != s.pcs[t].n
  {
    assert s.queue[k] != t;
  }

  /** All references of another thread lead into the queue or to its own node. */
  lemma ReferencesAreQueued(s: State, t: nat, u: nat)
    requires Inv(s) && t < |s.pcs| && s.pcs[t].Dropping? && u < |s.pcs| && u != t
    ensures s.pcs[u].Linking? ==> s.pcs[u].pred != s.pcs[t].n
    ensures s.pcs[u].Passing? ==> s.pcs[u].succ != s.pcs[t].n
    ensures Queued(s.pcs[u]) ==> Next(s, s.pcs[u].n) != To(s.pcs[t].n)
  {
    if s.pcs[u].Linking? {
      var j := LinkingIsWaiter(s, u);
      DroppedIsNotQueued(s, t, j - 1);
    }
    if s.pcs[u].Passing? {
      GrantedIsHead(s, u);
      DroppedIsNotQueued(s, t, 1);
    }
    if Queued(s.pcs[u]) {
      NextIsQueued(s, t, u);
    }
  }

  lemma NextIsQueued(s: State, t: nat, u: nat)
    requires Inv(s) && t < |s.pcs| && s.pcs[t].Dropping? && u < |s.pcs| && Queued(s.pcs[u])
    ensures Next(s, s.pcs[u].n) != To(s.pcs[t].n)
  {
    var j: nat :| j < |s.queue| && s.queue[j] == u;
    if j + 1 < |s.queue| {
      assert WaiterOk(s, j + 1);
      DroppedIsNotQueued(s, t, j + 1);
    }
  }

  /** When a node is deallocated no other thread can reach it any more: not as its own node, not as its
      predecessor, not as its successor, and not through tail. */
  lemma FreedIsUnreachable(states: seq<State>, events: seq<Event>, k: nat, u: nat)
    requires IsRun(states, events) && k < |events| && events[k].a == Deallocate
    requires u < |states[k].pcs| && u != events[k].t
    ensures events[k].t < |states[k].pcs| && states[k].pcs[events[k].t].Dropping?
    ensures var n := states[k].pcs[events[k].t].n;
            && states[k].tail != To(n)
            && (!states[k].pcs[u].Out? ==> states[k].pcs[u].n != n)
            && (states[k].pcs[u].Linking? ==> states[k].pcs[u].pred != n)
            && (states[k].pcs[u].Passing? ==> states[k].pcs[u].succ != n)
            && (Queued(states[k].pcs[u]) ==> Next(states[k], states[k].pcs[u].n) != To(n))
  {
    RunInv(states, events, k);
    assert MovesAt(states, events, k);
    var s, t := states[k], events[k].t;
    if s.queue != [] {
      DroppedIsNotQueued(s, t, |s.queue| - 1);
    }
    ReferencesAreQueued(s, t, u);
  }

  // ---- progress ----

  /** What the head of the queue does next. */
  function NextOf(pc: Pc): Action {
    if pc.Spinning? then Spin else if pc.Entering? then SetOwner else if pc.Inside? then BeginUnlock
    else if pc.Leaving? then LoadNext else if pc.SawNull? then CasTail else if pc.Waiting? then SpinNext else Pass
  }

  lemma HeadMoves(s: State, t: nat)
    requires t < |s.pcs| && Queued(s.pcs[t]) && !s.pcs[t].Linking?
    requires s.pcs[t].Spinning? ==> !IsLocked(s, s.pcs[t].n)
    requires s.pcs[t].Inside? ==> s.owner.To?
    requires s.pcs[t].Waiting? ==> Next(s, s.pcs[t].n).To?
    ensures Possible(s, t, NextOf(s.pcs[t])) && Apply(s, t, NextOf(s.pcs[t])).pcs[t] != s.pcs[t]
  {
  }

  /** The lock never stops: while anyone is queued, the head can move on, or it waits for the link of its
      successor, which can be stored. */
  lemma SomeoneCanMove(s: State) returns (t: nat, a: Action)
    requires Inv(s) && s.queue != []
    ensures Possible(s, t, a) && Apply(s, t, a).pcs[t] != s.pcs[t]
    ensures t == s.queue[0] || (|s.queue| > 1 && t == s.queue[1] && a == Link)
  {
    t := s.queue[0];
    var pc := s.pcs[t];
    assert HeadOk(s);
    if pc.Waiting? && Next(s, pc.n).Null? {
      assert WaiterOk(s, 1);
      t, a := s.queue[1], Link;
    } else {
      a := NextOf(pc);
      HeadMoves(s, t);
    }
  }
}
