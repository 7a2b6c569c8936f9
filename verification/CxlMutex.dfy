/**
 CXLMutex: a lock that carries a vector clock.  A locker joins the clock of the lock into its own, element
 by element; a publishing unlock overwrites the clock of the lock with its own; unlock_relaxed leaves it.
 Mutual exclusion is that of McsLock.  Between these, a thread's clock may grow by other synchronisation.
 */
module CxlMutex {
  import opened Clocks

  datatype Pc =
    | Outside
    | Joining(j: nat)          // lock held, merging element j of the location clock
    | Inside
    | Storing(j: nat)          // unlock: writing element j of the location clock
    | Unlocking

  // published (clocks of the publishing unlocks so far) is a history variable
  datatype State = State(nodes: nat, holder: int, loc: Clock, clocks: seq<Clock>, pcs: seq<Pc>, published: seq<Clock>)

  datatype Action = Lock | JoinElement | Grow(c: Clock) | Unlock | UnlockRelaxed | StoreElement | Release

  ghost predicate Shape(s: State) {
    |s.loc| == s.nodes && |s.clocks| == |s.pcs| && forall t: nat | t < |s.clocks| :: |s.clocks[t]| == s.nodes
  }

  ghost predicate Possible(s: State, t: nat, a: Action)
  {
    && Shape(s) && t < |s.pcs|
    && match a
       case Lock => s.pcs[t].Outside? && s.holder < 0
       case JoinElement => s.pcs[t].Joining?
       case Grow(c) => (s.pcs[t].Outside? || s.pcs[t].Inside?) && Leq(s.clocks[t], c)
       case Unlock => s.pcs[t].Inside?
       case UnlockRelaxed => s.pcs[t].Inside?
       case StoreElement => s.pcs[t].Storing?
       case Release => s.pcs[t].Unlocking?
  }

  ghost function Apply(s: State, t: nat, a: Action): State
    requires Possible(s, t, a)
  {
    var pc := s.pcs[t];
    match a
    case Lock => s.(holder := t, pcs := s.pcs[t := Joining(0)])
    case JoinElement =>
      if pc.j >= s.nodes then s.(pcs := s.pcs[t := Inside])
      else
        var c: Clock := s.clocks[t][pc.j := Max(s.clocks[t][pc.j], s.loc[pc.j])];
        s.(clocks := s.clocks[t := c], pcs := s.pcs[t := Joining(pc.j + 1)])
    case Grow(c) => s.(clocks := s.clocks[t := c])
    case Unlock => s.(pcs := s.pcs[t := Storing(0)])
    case UnlockRelaxed => s.(pcs := s.pcs[t := Unlocking])
    case StoreElement =>
      if pc.j >= s.nodes then s.(pcs := s.pcs[t := Unlocking], published := s.published + [s.clocks[t]])
      else
        var l: Clock := s.loc[pc.j := s.clocks[t][pc.j]];
        s.(loc := l, pcs := s.pcs[t := Storing(pc.j + 1)])
    case Release => s.(holder := -1, pcs := s.pcs[t := Outside])
  }

  ghost predicate ThreadOk(s: State, t: nat)
    requires Shape(s) && t < |s.pcs|
  {
    && (!s.pcs[t].Outside? <==> s.holder == t)
    && match s.pcs[t]
       case Joining(j) => LeqUpto(s.loc, s.clocks[t], j)
       case Inside => Leq(s.loc, s.clocks[t])
       case Storing(j) => Leq(s.loc, s.clocks[t]) && LeqUpto(s.clocks[t], s.loc, j)
       case _ => true
  }

  ghost predicate Inv(s: State) {
    && Shape(s)
    && s.holder < |s.pcs|
    && (forall t: nat | t < |s.pcs| :: ThreadOk(s, t))
    && (forall p: nat | p < |s.published| :: Leq(s.published[p], s.loc))
  }

  lemma LocGrows(s: State, t: nat, a: Action)
    requires Inv(s) && Possible(s, t, a)
    ensures Shape(Apply(s, t, a)) && Leq(s.loc, Apply(s, t, a).loc)
  {
    assert ThreadOk(s, t);
  }

  lemma StepThread(s: State, t: nat, a: Action, u: nat)
    requires Inv(s) && Possible(s, t, a) && Shape(Apply(s, t, a)) && u < |s.pcs|
    ensures ThreadOk(Apply(s, t, a), u)
  {
    assert ThreadOk(s, t) && ThreadOk(s, u);
  }

  lemma StepKeepsInv(s: State, t: nat, a: Action)
    requires Inv(s) && Possible(s, t, a)
    ensures Inv(Apply(s, t, a))
  {
    var s' := Apply(s, t, a);
    LocGrows(s, t, a);
    forall u: nat | u < |s.pcs| ensures ThreadOk(s', u) {
      StepThread(s, t, a, u);
    }
    forall p: nat | p < |s'.published| ensures Leq(s'.published[p], s'.loc) {
      assert ThreadOk(s, t);
      if p < |s.published| {
        assert s'.published[p] == s.published[p];
        assert Leq(s.published[p], s.loc);
      }
    }
  }

  ghost predicate Init(s: State) {
    && Shape(s) && s.holder == -1 && s.published == []
    && forall t: nat | t < |s.pcs| :: s.pcs[t] == Outside
  }

  datatype Event = Event(t: nat, a: Action)

  ghost predicate MovesAt(states: seq<State>, events: seq<Event>, k: nat)
    requires |states| == |events| + 1 && k < |events|
  {
    Possible(states[k], events[k].t, events[k].a) && states[k + 1] == Apply(states[k], events[k].t, events[k].a)
  }

  ghost predicate IsRun(states: seq<State>, events: seq<Event>) {
    |states| == |events| + 1 && Init(states[0]) && forall k: nat | k < |events| :: MovesAt(states, events, k)
  }

  lemma {:induction false} RunInv(states: seq<State>, events: seq<Event>, k: nat)
    requires IsRun(states, events) && k < |states|
    ensures Inv(states[k])
  {
    if k > 0 {
      RunInv(states, events, k - 1);
      assert MovesAt(states, events, k - 1);
      StepKeepsInv(states[k - 1], events[k - 1].t, events[k - 1].a);
    }
  }

  /**
   Although unlock overwrites the clock of the lock, a thread that has locked it dominates the clock of every
   earlier publishing unlock, not only of the last one.
   */
  lemma LockerDominates(states: seq<State>, events: seq<Event>, j: nat, k: nat, t: nat, u: nat)
    requires IsRun(states, events) && j < k < |states|
    // unlock number j, by u, published the clock it had then
    requires events[j] == Event(u, StoreElement) && u < |states[j].pcs| && states[j].pcs[u] == Storing(states[j].nodes)
    // t is past its lock in state k
    requires t < |states[k].pcs| && states[k].pcs[t].Inside?
    ensures u < |states[j].clocks| && t < |states[k].clocks|
    ensures Leq(states[j].clocks[u], states[k].clocks[t])
  {
    RunInv(states, events, j);
    RunInv(states, events, k);
    assert MovesAt(states, events, j);
    assert states[j + 1].published[|states[j].published|] == states[j].clocks[u];
    PublishedStays(states, events, j + 1, k, |states[j].published|);
    assert ThreadOk(states[k], t);
  }

  /** While a locker merges the clock of the lock, which it reads by reference, nobody writes to it. */
  lemma LockerMergesStable(states: seq<State>, events: seq<Event>, k: nat, t: nat)
    requires IsRun(states, events) && k < |events| && t < |states[k].pcs| && states[k].pcs[t].Joining?
    ensures states[k + 1].loc == states[k].loc
  {
    RunInv(states, events, k);
    assert MovesAt(states, events, k);
    assert ThreadOk(states[k], t) && ThreadOk(states[k], events[k].t);
  }

  lemma {:induction false} PublishedStays(states: seq<State>, events: seq<Event>, j: nat, k: nat, p: nat)
    requires IsRun(states, events) && j <= k < |states| && p < |states[j].published|
    ensures p < |states[k].published| && states[k].published[p] == states[j].published[p]
    decreases k
  {
    if j < k {
      PublishedStays(states, events, j, k - 1, p);
      assert MovesAt(states, events, k - 1);
    }
  }
}
