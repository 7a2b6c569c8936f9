/** The barrier over whole runs, for unboundedly many rounds: nobody leaves early, and leavers know everything. */
module BarrierTheorems {
  import opened Clocks
  import opened Pigeonhole
  import opened Barrier

  datatype Event = Event(t: nat, a: Action)

  ghost predicate Init(s: State) {
    && Shape(s) && 0 < |s.pcs| && s.arrived == 0 && s.phase == 0 && s.round == 0 && s.current == {}
    && forall t: nat | t < |s.pcs| :: s.pcs[t] == Idle && s.done[t] == 0 && s.at[t] == []
  }

  /** Up to 128 participants the barrier works; beyond that, nobody ever recognises itself as the last. */
  ghost predicate Kept(s: State) {
    if |s.pcs| <= 128 then Inv(s) else Stuck(s)
  }

  lemma InitKept(s: State)
    requires Init(s)
    ensures Kept(s)
  {
    if |s.pcs| <= 128 {
      InitInv(s);
    } else {
      assert forall t: nat | t < |s.pcs| :: StuckAt(s, t);
    }
  }

  lemma StepKept(s: State, t: nat, a: Action)
    requires Kept(s) && Possible(s, t, a)
    ensures Kept(Apply(s, t, a)) && |Apply(s, t, a).pcs| == |s.pcs|
  {
    if |s.pcs| <= 128 {
      StepKeepsInv(s, t, a);
    } else {
      StepKeepsStuck(s, t, a);
    }
  }

  lemma LeaverDominates(s: State, t: nat, u: nat, k: nat)
    requires Kept(s) && t < |s.pcs| && u < |s.pcs| && t < |s.done| && k < s.done[t]
    ensures Shape(s) && k < |s.at[u]| && Leq(s.at[u][k], s.clocks[t])
  {
    assert |s.pcs| > 128 ==> StuckAt(s, t);
    assert RoundOk(s, t) && RoundOk(s, u) && Knows(s, s.clocks[t], u, k);
  }

  lemma InitInv(s: State)
    requires Init(s) && |s.pcs| <= 128
    ensures Inv(s)
  {
    assert forall t: nat | t < |s.pcs| :: !Leader(s, t) && RoundOk(s, t);
  }

  ghost predicate MovesAt(states: seq<State>, events: seq<Event>, k: nat)
    requires |states| == |events| + 1 && k < |events|
  {
    Possible(states[k], events[k].t, events[k].a) && states[k + 1] == Apply(states[k], events[k].t, events[k].a)
  }

  ghost predicate IsRun(states: seq<State>, events: seq<Event>) {
    |states| == |events| + 1 && Init(states[0]) && forall k: nat | k < |events| :: MovesAt(states, events, k)
  }

  lemma {:induction false} RunKept(states: seq<State>, events: seq<Event>, k: nat)
    requires IsRun(states, events) && k < |states|
    ensures Kept(states[k]) && |states[k].pcs| == |states[0].pcs|
  {
    if k == 0 {
      InitKept(states[0]);
    } else {
      RunKept(states, events, k - 1);
      assert MovesAt(states, events, k - 1);
      StepKept(states[k - 1], events[k - 1].t, events[k - 1].a);
    }
  }

  // ---- what the events say ----

  /** The clocks with which thread u arrived, in order. */
  ghost function ArrivalClocks(events: seq<Event>, u: nat): seq<Clock> {
    if events == [] then []
    else
      var e := events[|events| - 1];
      ArrivalClocks(events[..|events| - 1], u) + if e.t == u && e.a.Arrive? then [e.a.c] else []
  }

  /** How many times thread t has left wait(). */
  ghost function Departures(states: seq<State>, events: seq<Event>, t: nat): nat
    requires |events| < |states|
  {
    if events == [] then 0
    else
      var n := |events| - 1;
      var left := events[n].t == t && t < |states[n].pcs| && t < |states[n + 1].pcs|
                  && !states[n].pcs[t].Idle? && states[n + 1].pcs[t].Idle?;
      Departures(states, events[..n], t) + if left then 1 else 0
  }

  /** One step lengthens the arrivals of t by its arrival, and counts a departure when t comes back to Idle. */
  lemma StepHistory(s: State, u: nat, a: Action, t: nat)
    requires Possible(s, u, a) && t < |s.pcs|
    ensures var s' := Apply(s, u, a);
            && Shape(s') && |s'.pcs| == |s.pcs|
            && s'.at[t] == s.at[t] + (if u == t && a.Arrive? then [a.c] else [])
            && s'.done[t] == s.done[t] + (if u == t && !s.pcs[t].Idle? && s'.pcs[t].Idle? then 1 else 0)
  {
  }

  lemma {:induction false} RunArrivals(states: seq<State>, events: seq<Event>, k: nat, t: nat)
    requires IsRun(states, events) && k < |states| && t < |states[0].pcs|
    ensures Shape(states[k]) && t < |states[k].pcs| && states[k].at[t] == ArrivalClocks(events[..k], t)
  {
    RunKept(states, events, k);
    if k > 0 {
      RunKept(states, events, k - 1);
      RunArrivals(states, events, k - 1, t);
      assert MovesAt(states, events, k - 1);
      StepHistory(states[k - 1], events[k - 1].t, events[k - 1].a, t);
      assert events[..k][..k - 1] == events[..k - 1];
    }
  }

  lemma {:induction false} RunDepartures(states: seq<State>, events: seq<Event>, k: nat, t: nat)
    requires IsRun(states, events) && k < |states| && t < |states[0].pcs|
    ensures Shape(states[k]) && t < |states[k].pcs| && states[k].done[t] == Departures(states, events[..k], t)
  {
    RunKept(states, events, k);
    if k > 0 {
      RunKept(states, events, k - 1);
      RunDepartures(states, events, k - 1, t);
      assert MovesAt(states, events, k - 1);
      StepHistory(states[k - 1], events[k - 1].t, events[k - 1].a, t);
      assert events[..k][..k - 1] == events[..k - 1];
    }
  }

  lemma RunHistory(states: seq<State>, events: seq<Event>, k: nat, t: nat)
    requires IsRun(states, events) && k < |states| && t < |states[0].pcs|
    ensures Kept(states[k]) && Shape(states[k]) && t < |states[k].pcs| == |states[0].pcs|
    ensures states[k].at[t] == ArrivalClocks(events[..k], t)
    ensures states[k].done[t] == Departures(states, events[..k], t)
  {
    RunKept(states, events, k);
    RunArrivals(states, events, k, t);
    RunDepartures(states, events, k, t);
  }

  lemma NobodyLeaves(states: seq<State>, events: seq<Event>, k: nat, t: nat)
    requires IsRun(states, events) && k < |states| && t < |states[0].pcs|
    ensures |states[0].pcs| > 128 ==> Departures(states, events[..k], t) == 0
  {
    RunHistory(states, events, k, t);
    assert |states[0].pcs| > 128 ==> StuckAt(states[k], t);
  }

  /** Nobody leaves its k-th wait before everybody has arrived for the k-th time, and nobody is a round ahead. */
  lemma NobodyLeavesEarly(states: seq<State>, events: seq<Event>, k: nat, t: nat, u: nat)
    requires IsRun(states, events) && k < |states| && t < |states[0].pcs| && u < |states[0].pcs|
    ensures Departures(states, events[..k], t) <= |ArrivalClocks(events[..k], u)|
    ensures |ArrivalClocks(events[..k], u)| <= Departures(states, events[..k], t) + 2
  {
    RunHistory(states, events, k, t);
    RunHistory(states, events, k, u);
    if |states[k].pcs| <= 128 {
      assert RoundOk(states[k], t) && RoundOk(states[k], u);
    } else {
      assert StuckAt(states[k], t) && StuckAt(states[k], u);
    }
  }

  /** Whoever has left its k-th wait dominates the clock of every participant at its k-th arrival. */
  lemma LeaversDominate(states: seq<State>, events: seq<Event>, k: nat, t: nat, u: nat, r: nat)
    requires IsRun(states, events) && k < |states| && t < |states[0].pcs| && u < |states[0].pcs|
    requires r < Departures(states, events[..k], t)
    ensures r < |ArrivalClocks(events[..k], u)| && t < |states[k].clocks|
    ensures Leq(ArrivalClocks(events[..k], u)[r], states[k].clocks[t])
  {
    RunHistory(states, events, k, t);
    RunHistory(states, events, k, u);
    LeaverDominates(states[k], t, u, r);
  }

  /** The barrier never hangs on its own: some participant is not spinning, or spins on a phase that is over. */
  lemma NeverAllSpinning(s: State)
    requires Inv(s)
    ensures exists t: nat | t < |s.pcs| :: !(s.pcs[t].Spinning? && Char(s.phase) == s.pcs[t].phase)
  {
    PhaseTells(s);
    if t: nat :| t < |s.pcs| && t !in s.current {
      assert RoundOk(s, t);
    } else {
      assert s.current == Below(|s.pcs|);
      BelowSize(|s.pcs|);
      var t: nat :| t < |s.pcs| && Leader(s, t);
    }
  }

  // ---- for how many participants the barrier works ----

  ghost predicate RunTo(s0: State, s: State, states: seq<State>, events: seq<Event>) {
    IsRun(states, events) && states[0] == s0 && states[|events|] == s
  }

  ghost predicate ReachableFrom(s0: State, s: State) {
    exists states: seq<State>, events: seq<Event> :: RunTo(s0, s, states, events)
  }

  lemma ExtendRun(s0: State, s: State, states: seq<State>, events: seq<Event>, t: nat, a: Action)
    requires RunTo(s0, s, states, events) && Possible(s, t, a)
    ensures RunTo(s0, Apply(s, t, a), states + [Apply(s, t, a)], events + [Event(t, a)])
  {
    var states', events' := states + [Apply(s, t, a)], events + [Event(t, a)];
    forall k: nat | k < |events'| ensures MovesAt(states', events', k) {
      if k < |events| {
        assert MovesAt(states, events, k);
      }
    }
  }

  lemma Extend(s0: State, s: State, t: nat, a: Action)
    requires ReachableFrom(s0, s) && Possible(s, t, a)
    ensures ReachableFrom(s0, Apply(s, t, a))
  {
    var states: seq<State>, events: seq<Event> :| RunTo(s0, s, states, events);
    ExtendRun(s0, s, states, events, t, a);
  }

  /** Thread t has left a wait in some run from s0. */
  ghost predicate Leaves(s0: State, states: seq<State>, events: seq<Event>, t: nat) {
    IsRun(states, events) && states[0] == s0 && Departures(states, events, t) > 0
  }

  ghost predicate SomeoneLeaves(s0: State) {
    exists states: seq<State>, events: seq<Event>, t: nat | t < |s0.pcs| :: Leaves(s0, states, events, t)
  }

  /** The first j participants have arrived, in order, and none of them has looked at its rank. */
  ghost predicate Arrived(s0: State, s: State, j: nat) {
    && Shape(s) && |s.pcs| == |s0.pcs| && j <= |s.pcs| && s.arrived == j && s.phase == 0
    && (forall t: nat | j <= t < |s.pcs| :: s.pcs[t].Idle?)
    && (j > 0 ==> s.pcs[j - 1] == Counted(0, j))
  }

  lemma {:induction false} ArriveAll(s0: State, j: nat) returns (s: State)
    requires Init(s0) && j <= |s0.pcs| <= 128
    ensures ReachableFrom(s0, s) && Arrived(s0, s, j)
  {
    if j == 0 {
      var none: seq<Event> := [];
      assert RunTo(s0, s0, [s0], none);
      s := s0;
    } else {
      s := ArriveAll(s0, j - 1);
      Extend(s0, s, j - 1, LoadPhase);
      s := Apply(s, j - 1, LoadPhase);
      Extend(s0, s, j - 1, Arrive(s.clocks[j - 1]));
      s := Apply(s, j - 1, Arrive(s.clocks[j - 1]));
      LastArrivalIff(j);
    }
  }

  /** The last participant to arrive ends the round. */
  lemma LastLeaves(s0: State)
    requires Init(s0) && |s0.pcs| <= 128
    ensures SomeoneLeaves(s0)
  {
    var t := |s0.pcs| - 1;
    var s := ArriveAll(s0, t + 1);
    Extend(s0, s, t, Compare);
    s := Apply(s, t, Compare);
    Extend(s0, s, t, StoreZero);
    s := Apply(s, t, StoreZero);
    var states: seq<State>, events: seq<Event> :| RunTo(s0, s, states, events);
    var a := NextPhase(s.clocks[t]);
    ExtendRun(s0, s, states, events, t, a);
    LeavesNow(s0, s, states, events, t, a);
  }

  lemma LeavesNow(s0: State, s: State, states: seq<State>, events: seq<Event>, t: nat, a: Action)
    requires RunTo(s0, s, states, events) && Possible(s, t, a) && t < |s0.pcs|
    requires !s.pcs[t].Idle? && Apply(s, t, a).pcs[t].Idle?
    requires RunTo(s0, Apply(s, t, a), states + [Apply(s, t, a)], events + [Event(t, a)])
    ensures SomeoneLeaves(s0)
  {
    var states', events' := states + [Apply(s, t, a)], events + [Event(t, a)];
    assert events'[..|events|] == events;
    assert Leaves(s0, states', events', t);
  }

  /** Some participant can leave the barrier exactly if there are at most 128 of them. */
  lemma SomeoneLeavesIff(s0: State)
    requires Init(s0)
    ensures SomeoneLeaves(s0) <==> |s0.pcs| <= 128
  {
    if |s0.pcs| <= 128 {
      LastLeaves(s0);
    }
    if SomeoneLeaves(s0) {
      var states: seq<State>, events: seq<Event>, t: nat :| t < |s0.pcs| && Leaves(s0, states, events, t);
      NobodyLeaves(states, events, |events|, t);
      assert events[..|events|] == events;
    }
  }
}
