/**
 The promise of the design: a program whose accesses to each line are ordered by happens-before never
 sees the absence of hardware coherence.  Plus what the thread-side fast path owes: no store is lost.
 */
module RaceFreedom {
  import opened Clocks
  import opened Broadcast
  import opened Protocol
  import opened Progress
  import opened Threads
  import opened Waiting
  import opened Coherence
  import opened CoherenceTheorems
  import opened HappensBefore
  import opened ByReference

  ghost predicate FreshTrace(s: State, g: Trace) {
    && s.WF()
    && g.ths == seq(|s.threads|, _ => History([], 0, Zero(|s.threads|), Zero(|s.threads|), Zero(|s.threads|)))
    && g.marks == seq(|s.rings|, _ => [])
    && g.locs == seq(|s.locs|, _ => Zero(|s.threads|))
  }

  ghost predicate FullInv(s: State, g: Trace) {
    Inv(s) && AllBelow(s) && HbInv(s, g) && AllLogged(s, g)
  }

  lemma FreshThreadHb(s: State, g: Trace, t: nat, u: nat)
    requires Init(s) && FreshTrace(s, g) && Sized(s, g) && t < |s.threads| && u < |s.threads|
    ensures OwnOk(s, g, t) && ThreadCarries(s, g, t, u) && OwnBelow(s.threads[t])
  {
    assert FreshThread(s, t);
    assert s.threads[t].clock[s.threads[u].node] == 0;
  }

  lemma InitFull(s: State, g: Trace)
    requires Init(s) && FreshTrace(s, g)
    ensures FullInv(s, g)
  {
    InitInv(s);
    forall t: nat, u: nat | t < |s.threads| && u < |s.threads|
      ensures OwnOk(s, g, t) && ThreadCarries(s, g, t, u) && OwnBelow(s.threads[t])
    {
      FreshThreadHb(s, g, t, u);
    }
    forall t: nat | t < |s.threads| ensures OwnOk(s, g, t) && OwnBelow(s.threads[t]) {
      FreshThreadHb(s, g, t, t);
    }
  }

  lemma StepKeepsHb(s: State, g: Trace, step: Step)
    requires PcsOk(s) && AllBelow(s) && HbInv(s, g) && Possible(s, step)
    ensures HbInv(Apply(s, step), Track(s, g, step))
  {
    var s', g' := Apply(s, step), Track(s, g, step);
    TrackLater(s, g, step);
    forall t: nat | t < |s.threads| ensures OwnOk(s', g', t) {
      if step.ByThread? && step.t == t {
        OwnStepOk(s, g, t, step.a);
      } else {
        OtherStepOk(s, g, step, s', g', t);
      }
    }
    forall i: nat, k: nat | i < |s'.rings| && k < |s'.rings[i]| ensures SlotOk(s', g', i, k) {
      StepSlotOk(s, g, step, s', g', i, k);
    }
    forall t: nat, u: nat | t < |s.threads| && u < |s.threads| ensures ThreadCarries(s', g', t, u) {
      StepThreadCarries(s, g, step, s', g', t, u);
    }
    forall x: nat, u: nat | x < |s.locs| && u < |s.threads| ensures LocCarries(s', g', x, u) {
      StepLocCarries(s, g, step, x, u);
    }
  }

  lemma StepKeepsFull(s: State, g: Trace, step: Step)
    requires FullInv(s, g) && Possible(s, step) && Guarded(s, step)
    ensures FullInv(Apply(s, step), Track(s, g, step))
  {
    StepKeepsInv(s, step);
    StepBelow(s, step);
    StepKeepsHb(s, g, step);
    StepPcs(s, step);
    StepTracks(s, step);
    TrackLater(s, g, step);
    StepLogged(s, g, step, Apply(s, step), Track(s, g, step));
  }

  // ---- runs of a program that is race free by happens-before ----

  ghost predicate HbGuarded(s: State, g: Trace, step: Step)
    requires Sized(s, g) && Possible(s, step)
  {
    step.ByThread? && (step.a.Load? || step.a.Store?) ==> HbRaceFree(s, g, step.t, step.a.l)
  }

  ghost predicate HbMoves(s: State, g: Trace, step: Step, s': State, g': Trace) {
    Sized(s, g) && Possible(s, step) && HbGuarded(s, g, step) && s' == Apply(s, step) && g' == Track(s, g, step)
  }

  ghost predicate IsHbRun(states: seq<State>, traces: seq<Trace>, steps: seq<Step>) {
    && |states| == |traces| == |steps| + 1
    && Init(states[0]) && FreshTrace(states[0], traces[0])
    && forall k: nat | k < |steps| :: HbMovesAt(states, traces, steps, k)
  }

  ghost predicate HbMovesAt(states: seq<State>, traces: seq<Trace>, steps: seq<Step>, k: nat)
    requires |states| == |traces| == |steps| + 1 && k < |steps|
  {
    HbMoves(states[k], traces[k], steps[k], states[k + 1], traces[k + 1])
  }

  lemma HbMoveIsMove(s: State, g: Trace, step: Step, s': State, g': Trace)
    requires FullInv(s, g) && HbMoves(s, g, step, s', g')
    ensures Moves(s, step, s') && FullInv(s', g')
  {
    if step.ByThread? && (step.a.Load? || step.a.Store?) {
      HbRaceFreeIsRaceFree(s, g, step.t, step.a.l);
    }
    StepKeepsFull(s, g, step);
  }

  lemma HbRunStep(states: seq<State>, traces: seq<Trace>, steps: seq<Step>, k: nat)
    requires IsHbRun(states, traces, steps) && k < |steps| && FullInv(states[k], traces[k])
    ensures FullInv(states[k + 1], traces[k + 1]) && MovesAt(states, steps, k)
  {
    assert HbMovesAt(states, traces, steps, k);
    HbMoveIsMove(states[k], traces[k], steps[k], states[k + 1], traces[k + 1]);
  }

  lemma {:induction false} HbRunFull(states: seq<State>, traces: seq<Trace>, steps: seq<Step>, k: nat)
    requires IsHbRun(states, traces, steps) && k < |states|
    ensures FullInv(states[k], traces[k])
  {
    if k == 0 {
      InitFull(states[0], traces[0]);
    } else {
      HbRunFull(states, traces, steps, k - 1);
      HbRunStep(states, traces, steps, k - 1);
    }
  }

  lemma HbRunIsRun(states: seq<State>, traces: seq<Trace>, steps: seq<Step>)
    requires IsHbRun(states, traces, steps)
    ensures IsRun(states, steps)
  {
    forall k: nat | k < |steps| ensures MovesAt(states, steps, k) {
      HbRunFull(states, traces, steps, k);
      HbRunStep(states, traces, steps, k);
    }
  }

  /**
   Race freedom suffices.  When every access is preceded, in happens-before, by all stores to its line from
   other nodes, each load of the run returns what one coherent memory would return.
   */
  lemma RaceFreeRunsAreCoherent(states: seq<State>, traces: seq<Trace>, steps: seq<Step>, k: nat)
    requires IsHbRun(states, traces, steps) && k < |steps| && steps[k].ByThread?
    ensures IsRun(states, steps)
    ensures steps[k].a.Load? ==>
              steps[k].a.v == Word(At(Reference(states[0].mem, steps[..k]), steps[k].a.l), steps[k].a.w)
    ensures steps[k].a.Store? ==>
              var s, t := states[k], steps[k].t;
              && s.WF() && t < |s.threads|
              && Visible(s, s.threads[t].node, steps[k].a.l) == At(Reference(states[0].mem, steps[..k]), steps[k].a.l)
  {
    HbRunIsRun(states, traces, steps);
    AccessesAreCoherent(states, steps, k);
  }

  /**
   No store is lost.  Every line a thread has stored to is still in its table or in a log it committed, and
   once recent_cl is 0 outside write_to_log, all its logs lie below its own clock component.
   */
  lemma NoStoreIsLost(states: seq<State>, traces: seq<Trace>, steps: seq<Step>, k: nat, t: nat, m: nat)
    requires IsHbRun(states, traces, steps) && k < |states|
    requires t < |states[k].threads| && t < |traces[k].ths| && m < |traces[k].ths[t].stores|
    ensures var s, g := states[k], traces[k];
            && Sized(s, g)
            && (g.ths[t].stores[m] in s.threads[t].dirty || Logged(s, g, t, m))
            && (s.threads[t].pc.Idle? && s.threads[t].recent == 0 ==>
                  exists j: nat | j < s.threads[t].clock[s.threads[t].node] :: LoggedAt(s, g, t, m, j))
  {
    HbRunFull(states, traces, steps, k);
    var s, g := states[k], traces[k];
    assert OwnOk(s, g, t) && PcOk(s.threads[t], s.rings[s.threads[t].node]);
    var h := g.ths[t];
    if m < h.flushed {
      assert Logged(s, g, t, m);
      var j: nat :| LoggedAt(s, g, t, m, j);
    } else {
      assert h.stores[m] in LinesOf(h.stores, h.flushed, |h.stores|);
    }
  }

  /** A logged store is in the lines of its log, so a consumer of the log invalidates it. */
  lemma LoggedIsHeld(s: State, g: Trace, t: nat, m: nat, k: nat)
    requires HbInv(s, g) && t < |s.threads| && m < |g.ths[t].stores| && LoggedAt(s, g, t, m, k)
    ensures Holds(s.rings[s.threads[t].node], k, g.ths[t].stores[m])
  {
    assert SlotOk(s, g, s.threads[t].node, k);
  }

  /** Skipping the insert when the line is recent_cl is safe, and a zero recent_cl means nothing to publish. */
  lemma RecentIsInTable(states: seq<State>, steps: seq<Step>, k: nat, t: nat)
    requires IsRun(states, steps) && k < |states| && t < |states[k].threads| && states[k].threads[t].pc.Idle?
    ensures states[k].threads[t].recent != 0 ==> states[k].threads[t].recent in states[k].threads[t].dirty
    ensures states[k].threads[t].recent == 0 <==> states[k].threads[t].dirty == {}
  {
    RunInv(states, steps, k);
    assert PcOk(states[k].threads[t], states[k].rings[states[k].threads[t].node]);
  }

  // ---- what an acquire learns ----

  /** The open acquire of thread t still joins the history that the location had when it began. */
  ghost predicate SteadyHistory(s: State, g: Trace, t: nat)
    requires Sized(s, g) && t < |s.threads|
  {
    var th, h := s.threads[t], g.ths[t];
    && (th.pc.Acquiring? || th.pc.Merging? ==> th.pc.byRef ==> g.locs[th.pc.loc] == h.target)
    && (th.pc.Acquiring? ==>
          forall u: nat | u < |s.threads| && s.threads[u].node in th.pc.done :: h.waited[u] == h.target[u])
    && (th.pc.Merging? ==>
          forall u: nat | u < |s.threads| && s.threads[u].node != th.node :: h.waited[u] == h.target[u])
  }

  lemma OwnStepSteadyHistory(s: State, g: Trace, t: nat, a: ThreadStep)
    requires Sized(s, g) && t < |s.threads| && SteadyHistory(s, g, t) && ThreadPossible(s, t, a) && !a.Publish?
    requires Sized(ApplyThread(s, t, a), TrackThread(s, g, t, a))
    ensures SteadyHistory(ApplyThread(s, t, a), TrackThread(s, g, t, a), t)
  {
    if a.BeginAcquire? || a.CheckNode? || a.BeginMerge? || a.MergeElement? {
      AcquireStepSteadyHistory(s, g, t, a);
    } else {
      var pc, pc' := s.threads[t].pc, ApplyThread(s, t, a).threads[t].pc;
      assert !(pc'.Acquiring? || pc'.Merging?);
    }
  }

  lemma AcquireStepSteadyHistory(s: State, g: Trace, t: nat, a: ThreadStep)
    requires Sized(s, g) && t < |s.threads| && SteadyHistory(s, g, t) && ThreadPossible(s, t, a)
    requires a.BeginAcquire? || a.CheckNode? || a.BeginMerge? || a.MergeElement?
    requires Sized(ApplyThread(s, t, a), TrackThread(s, g, t, a))
    ensures SteadyHistory(ApplyThread(s, t, a), TrackThread(s, g, t, a), t)
  {
    ThreadStepFrame(s, t, a);
    var s' := ApplyThread(s, t, a);
    assert forall u: nat | u < |s.threads| :: s'.threads[u].node == s.threads[u].node;
  }

  lemma SteadyHistoryFrame(s: State, g: Trace, s': State, g': Trace, t: nat)
    requires Sized(s, g) && Sized(s', g') && |s'.threads| == |s.threads| && |s'.locs| == |s.locs|
    requires t < |s.threads| && s'.threads[t] == s.threads[t] && g'.ths[t] == g.ths[t]
    requires forall u: nat | u < |s.threads| :: s'.threads[u].node == s.threads[u].node
    requires forall x: nat | x < |s.locs| && ReadsLive(s.threads[t], x) :: g'.locs[x] == g.locs[x]
    requires SteadyHistory(s, g, t)
    ensures SteadyHistory(s', g', t)
  {
    var pc := s.threads[t].pc;
    assert (pc.Acquiring? || pc.Merging?) && pc.byRef ==> ReadsLive(s.threads[t], pc.loc);
  }

  lemma LeaveSteadyHistory(s: State, g: Trace, n: nat, b: ConsumerStep, t: nat)
    requires Sized(s, g) && n < |s.nodes| && ConsumerPossible(s, n, b) && b.Leave? && s.nodes[n].cons.HeldBy(t)
    requires t < |s.threads| && SteadyHistory(s, g, t) && Sized(ApplyConsumer(s, n, b), Track(s, g, ByConsumer(n, b)))
    ensures SteadyHistory(ApplyConsumer(s, n, b), Track(s, g, ByConsumer(n, b)), t)
  {
    ConsumerStepFrame(s, n, b);
  }

  lemma HistoryLocs(s: State, g: Trace, step: Step, x: nat)
    requires Sized(s, g) && Possible(s, step) && x < |g.locs|
    ensures |Track(s, g, step).locs| == |g.locs|
    ensures Track(s, g, step).locs[x] == g.locs[x] || (step.ByThread? && step.a.Publish? && step.a.x == x)
  {
  }

  lemma StepSteadyHistory(s: State, g: Trace, step: Step, t: nat)
    requires HbInv(s, g) && Possible(s, step) && Undisturbed(s, step) && t < |s.threads| && SteadyHistory(s, g, t)
    requires Sized(Apply(s, step), Track(s, g, step))
    ensures SteadyHistory(Apply(s, step), Track(s, g, step), t)
  {
    var s', g' := Apply(s, step), Track(s, g, step);
    TrackLater(s, g, step);
    if step.ByThread? && step.t == t && !step.a.Publish? {
      OwnStepSteadyHistory(s, g, t, step.a);
    } else if step.ByConsumer? && step.b.Leave? && s.nodes[step.n].cons.HeldBy(t) {
      LeaveSteadyHistory(s, g, step.n, step.b, t);
    } else {
      if step.ByThread? && step.t == t {
        assert s'.threads[t] == s.threads[t] && g'.ths[t] == g.ths[t];
      } else {
        assert step.ByThread? ==> OwnOk(s, g, step.t);
        RecordChanges(s, g, step, t);
      }
      forall x: nat | x < |s.locs| && ReadsLive(s.threads[t], x) ensures g'.locs[x] == g.locs[x] {
        HistoryLocs(s, g, step, x);
      }
      SteadyHistoryFrame(s, g, s', g', t);
    }
  }

  lemma MoveSteadyHistory(s: State, g: Trace, step: Step, s': State, g': Trace, t: nat)
    requires FullInv(s, g) && HbMoves(s, g, step, s', g') && Undisturbed(s, step)
    requires t < |s.threads| && SteadyHistory(s, g, t)
    ensures Sized(s', g') && t < |s'.threads| && SteadyHistory(s', g', t)
  {
    TrackLater(s, g, step);
    StepSteadyHistory(s, g, step, t);
  }

  ghost predicate SteadyAt(states: seq<State>, traces: seq<Trace>, k: nat, t: nat)
    requires |states| == |traces| && k < |states|
  {
    Sized(states[k], traces[k]) && t < |states[k].threads| && SteadyHistory(states[k], traces[k], t)
  }

  lemma InitSteadyHistory(states: seq<State>, traces: seq<Trace>, steps: seq<Step>, t: nat)
    requires IsHbRun(states, traces, steps) && t < |states[0].threads|
    ensures SteadyAt(states, traces, 0, t)
  {
    assert FreshThread(states[0], t);
  }

  lemma NextSteadyHistory(states: seq<State>, traces: seq<Trace>, steps: seq<Step>, k: nat, t: nat)
    requires IsHbRun(states, traces, steps) && k < |steps| && Undisturbed(states[k], steps[k])
    requires SteadyAt(states, traces, k, t)
    ensures SteadyAt(states, traces, k + 1, t)
  {
    HbRunFull(states, traces, steps, k);
    assert HbMovesAt(states, traces, steps, k);
    MoveSteadyHistory(states[k], traces[k], steps[k], states[k + 1], traces[k + 1], t);
  }

  lemma {:induction false} RunSteadyHistory(states: seq<State>, traces: seq<Trace>, steps: seq<Step>, k: nat, t: nat)
    requires IsHbRun(states, traces, steps) && k < |states| && t < |states[0].threads|
    requires forall j: nat | j < k :: Undisturbed(states[j], steps[j])
    ensures SteadyAt(states, traces, k, t)
  {
    if k == 0 {
      InitSteadyHistory(states, traces, steps, t);
    } else {
      RunSteadyHistory(states, traces, steps, k - 1, t);
      NextSteadyHistory(states, traces, steps, k - 1, t);
    }
  }

  /** Where nobody writes to a location during an acquire of it by reference, the acquire joins the whole history
      of the location, for every thread: the tracked happens-before is the usual one. */
  lemma AcquireJoinsAll(states: seq<State>, traces: seq<Trace>, steps: seq<Step>, k: nat, t: nat, u: nat)
    requires IsHbRun(states, traces, steps) && k < |states| && t < |states[0].threads| && u < |states[0].threads|
    requires forall j: nat | j < k :: Undisturbed(states[j], steps[j])
    requires t < |states[k].threads| && u < |states[k].threads| && states[k].threads[t].pc.Merging?
    ensures Sized(states[k], traces[k])
    ensures Joined(states[k], traces[k], t, u) == traces[k].ths[t].target[u]
  {
    RunSteadyHistory(states, traces, steps, k, t);
  }
}
