/**
 CXLBarrier as an object: wait as it is written, with other threads allowed to take any steps in between.  What
 others may do is the contract of Interfere; its callers know nothing else about it.
 */
module BarrierObject {
  import opened Clocks
  import opened Barrier
  import BarrierTheorems

  /** The invariant as a fact that is looked into only through the lemmas below.  The number k means nothing; the
      recursion on it only keeps the definition from unfolding. */
  ghost predicate Good(s: State, k: nat) {
    if k == 0 then BarrierTheorems.Kept(s) else Good(s, k - 1)
  }

  lemma {:induction false} GoodIsKept(s: State, k: nat)
    ensures Good(s, k) == BarrierTheorems.Kept(s)
  {
    if k > 0 {
      GoodIsKept(s, k - 1);
    }
  }

  lemma StepGood(s: State, t: nat, a: Action)
    requires Good(s, |s.pcs|) && Possible(s, t, a)
    ensures var s' := Apply(s, t, a);
            && Good(s', |s'.pcs|) && Shape(s') && |s'.pcs| == |s.pcs| && s'.nodes == s.nodes
  {
    GoodIsKept(s, |s.pcs|);
    BarrierTheorems.StepKept(s, t, a);
    GoodIsKept(Apply(s, t, a), |Apply(s, t, a).pcs|);
  }

  /** A step of another thread does what Interfere promises to thread t. */
  lemma OthersInterfere(s: State, t: nat, u: nat, a: Action)
    requires Good(s, |s.pcs|) && Possible(s, u, a) && t < |s.pcs| && u != t
    ensures var s' := Apply(s, u, a);
            && Good(s', |s'.pcs|) && Shape(s') && |s'.pcs| == |s.pcs|
            && s'.pcs[t] == s.pcs[t] && s'.clocks[t] == s.clocks[t] && s'.done[t] == s.done[t]
            && s'.at[t] == s.at[t]
  {
    StepGood(s, u, a);
  }

  /** One more arrival, with at least clock c. */
  ghost predicate ArrivedWith(before: seq<Clock>, after: seq<Clock>, c: Clock) {
    |after| == |before| + 1 && before <= after && Leq(c, after[|before|])
  }

  class CXLBarrier {
    const nodes: nat
    const count: nat                // target
    var arrived: int
    var phase: int
    var arrivedClock: Clock
    var phaseClock: Clock
    var clocks: seq<Clock>          // the thread clocks

    ghost var pcs: seq<Pc>
    ghost var round: nat
    ghost var current: set<nat>
    ghost var done: seq<nat>        // how often each thread has left
    ghost var at: seq<seq<Clock>>   // the clocks with which each thread has arrived

    ghost function View(): State
      reads this
    {
      State(nodes, arrived, phase, arrivedClock, phaseClock, clocks, pcs, round, current, done, at)
    }

    ghost predicate Valid()
      reads this
    {
      Good(View(), |pcs|) && Shape(View()) && count == |pcs|
    }

    ghost predicate At(t: nat, pc: Pc)
      reads this
    {
      t < |pcs| && pcs[t] == pc
    }

    constructor (nodes: nat, count: nat)
      requires 0 < count
      ensures Valid() && round == 0 && forall t: nat | t < count :: At(t, Idle) && done[t] == 0
    {
      this.nodes, this.count := nodes, count;
      arrived, phase, arrivedClock, phaseClock := 0, 0, Zero(nodes), Zero(nodes);
      clocks := seq(count, _ => Zero(nodes));
      pcs, round, current := seq(count, _ => Idle), 0, {};
      done, at := seq<nat>(count, _ => 0), seq(count, _ => []);
      new;
      BarrierTheorems.InitKept(View());
      GoodIsKept(View(), |pcs|);
    }

    /** Any number of steps of threads other than t. */
    method Interfere(ghost t: nat)
      requires Valid() && t < |pcs|
      modifies this
      ensures Valid() && |pcs| == |old(pcs)|
      ensures pcs[t] == old(pcs[t]) && clocks[t] == old(clocks[t]) && done[t] == old(done[t]) && at[t] == old(at[t])
    {
    }

    /** The shared fields have just been changed by action a of thread t. */
    ghost method Did(t: nat, a: Action, before: State)
      requires Good(before, |before.pcs|) && Possible(before, t, a) && count == |before.pcs|
      requires View() == before.(arrived := arrived, phase := phase, arrivedClock := arrivedClock,
                                 phaseClock := phaseClock, clocks := clocks)
      requires var s := Apply(before, t, a);
               && arrived == s.arrived && phase == s.phase && clocks == s.clocks
               && arrivedClock == s.arrivedClock && phaseClock == s.phaseClock
      modifies this`pcs, this`round, this`current, this`done, this`at
      ensures View() == Apply(before, t, a) && Valid() && |pcs| == |old(pcs)|
    {
      var s := Apply(before, t, a);
      StepGood(before, t, a);
      pcs, round, current, done, at := s.pcs, s.round, s.current, s.done, s.at;
    }

    /** phase.load(acquire), before arriving */
    method LoadLocalPhase(t: nat) returns (p: int)
      requires Valid() && At(t, Idle)
      modifies this
      ensures Valid() && At(t, Loaded(p)) && done[t] == old(done[t]) && at[t] == old(at[t])
    {
      ghost var s := View();
      p := Char(phase);
      clocks := clocks[t := Merge(clocks[t], phaseClock)];
      Did(t, LoadPhase, s);
    }

    /** arrived.fetch_add(1, acq_rel) + 1, after a release that joined c to the thread clock */
    method AddArrived(t: nat, ghost p: int, c: Clock) returns (rank: int)
      requires Valid() && At(t, Loaded(p)) && |c| == nodes
      modifies this
      ensures Valid() && At(t, Counted(p, rank)) && done[t] == old(done[t])
      ensures ArrivedWith(old(at[t]), at[t], c)
    {
      ghost var s := View();
      var c1 := Merge(clocks[t], c);
      MergeIsJoin(clocks[t], c, c1);
      rank := Char(arrived) + 1;
      arrived := arrived + 1;
      arrivedClock := Merge(arrivedClock, c1);
      clocks := clocks[t := Merge(c1, arrivedClock)];
      Did(t, Arrive(c1), s);
    }

    method CompareRank(t: nat, p: int, rank: int) returns (last: bool)
      requires Valid() && At(t, Counted(p, rank))
      modifies this
      ensures Valid() && At(t, if last then Last else Spinning(p)) && done[t] == old(done[t]) && at[t] == old(at[t])
    {
      last := rank == count;
      ghost var s := View();
      Did(t, Compare, s);
      assert clocks == s.clocks;
    }

    method ZeroArrived(t: nat)
      requires Valid() && At(t, Last)
      modifies this
      ensures Valid() && At(t, Zeroed) && done[t] == old(done[t]) && at[t] == old(at[t])
    {
      ghost var s := View();
      arrived := 0;
      Did(t, StoreZero, s);
    }

    /** phase.fetch_add(1, acq_rel), after a release that joined d to the thread clock */
    method AddPhase(t: nat, d: Clock)
      requires Valid() && At(t, Zeroed) && |d| == nodes
      modifies this
      ensures Valid() && At(t, Idle) && done[t] == old(done[t]) + 1 && at[t] == old(at[t])
      ensures Leq(d, phaseClock) && Leq(d, clocks[t])
    {
      ghost var s := View();
      var c1 := Merge(clocks[t], d);
      MergeIsJoin(clocks[t], d, c1);
      phase := Wrap32(phase + 1);
      phaseClock := Merge(phaseClock, c1);
      clocks := clocks[t := Merge(c1, phaseClock)];
      Did(t, NextPhase(c1), s);
    }

    /** phase.load(acquire) == local_phase */
    method SamePhase(t: nat, p: int) returns (same: bool)
      requires Valid() && At(t, Spinning(p))
      modifies this
      ensures Valid() && At(t, if same then Spinning(p) else Idle)
      ensures done[t] == old(done[t]) + (if same then 0 else 1) && at[t] == old(at[t])
      ensures same ==> Char(phase) == p
    {
      ghost var s := View();
      same := Char(phase) == p;
      clocks := clocks[t := Merge(clocks[t], phaseClock)];
      Did(t, Spin, s);
    }

    /** Everyone has arrived at least as often as t has left, and t dominates all those arrivals. */
    ghost predicate Passed(t: nat)
      reads this
    {
      && t < |done| && t < |clocks| && |at| == |pcs|
      && forall u: nat, k: nat | u < |at| && k < done[t] :: k < |at[u]| && Leq(at[u][k], clocks[t])
    }

    lemma HasPassed(t: nat)
      requires Valid() && t < |pcs|
      ensures Passed(t)
    {
      GoodIsKept(View(), |pcs|);
      forall u: nat, k: nat | u < |at| && k < done[t] ensures k < |at[u]| && Leq(at[u][k], clocks[t]) {
        BarrierTheorems.LeaverDominates(View(), t, u, k);
      }
    }

    /** wait: whoever leaves has been joined by everyone, and knows what each of them knew on arrival.  Only the
        spinning can run out of patience. */
    method Wait(t: nat, c: Clock, d: Clock, patience: nat) returns (left: bool, ghost ended: bool)
      requires Valid() && At(t, Idle) && |c| == nodes == |d|
      modifies this
      ensures Valid() && t < |pcs| && Passed(t)
      ensures if left then pcs[t].Idle? && done[t] == old(done[t]) + 1 else pcs[t].Spinning? && done[t] == old(done[t])
      ensures !left && patience > 0 ==> Char(phase) == pcs[t].phase
      ensures ended ==> left && Leq(d, phaseClock) && Leq(d, clocks[t])
      ensures ArrivedWith(old(at[t]), at[t], c)
    {
      var localPhase := LoadLocalPhase(t);
      Interfere(t);
      var localArrived := AddArrived(t, localPhase, c);
      Interfere(t);
      var last := CompareRank(t, localPhase, localArrived);
      Interfere(t);
      ended := last;
      ghost var mine := at[t];
      if last {
        ZeroArrived(t);
        Interfere(t);
        AddPhase(t, d);
        left := true;
      } else {
        var spins := patience;
        left := false;
        while !left && spins > 0
          invariant Valid() && At(t, if left then Idle else Spinning(localPhase))
          invariant !left && spins < patience ==> Char(phase) == localPhase
          invariant done[t] == old(done[t]) + (if left then 1 else 0) && at[t] == mine
          decreases spins
        {
          Interfere(t);
          var same := SamePhase(t, localPhase);
          left := !same;
          spins := spins - 1;
        }
      }
      HasPassed(t);
    }
  }
}
