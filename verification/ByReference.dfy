/**
 thread_acquire takes the location clock by reference: CXLMutex and CXLSharedMutex pass it the live clock of
 the lock, which it reads again whenever it needs an element.  The thread clock stays within what the node
 has consumed exactly as long as nobody overwrites an element that an open acquire has already waited for;
 when nobody writes to a location during such an acquire of it, the thread clock is also a sound basis for
 the race-freedom check.  Overshoot has a run in which it is not.
 */
module ByReference {
  import opened Clocks
  import opened Broadcast
  import opened Protocol
  import opened Progress
  import opened Threads
  import opened Waiting
  import opened Coherence
  import opened CoherenceTheorems

  /** No component of the thread clock is beyond what the node has consumed. */
  ghost predicate WithinCacheClock(s: State, t: nat)
    requires s.WF() && t < |s.threads|
  {
    forall i: nat | i < |s.nodes| && i != s.threads[t].node ::
      s.threads[t].clock[i] <= s.nodes[s.threads[t].node].clock[i]
  }

  // ---- one merge ----

  /** The rest of VectorClock::merge, when nothing else happens meanwhile. */
  ghost function FinishMerge(s: State, t: nat): (s': State)
    requires s.WF() && t < |s.threads|
    ensures SameShape(s, s')
    decreases if s.threads[t].pc.Merging? then |s.nodes| + 1 - s.threads[t].pc.j else 0
  {
    if s.threads[t].pc.Merging? then FinishMerge(DoMergeElement(s, t), t) else s
  }

  lemma MergeOne(s: State, t: nat)
    requires s.WF() && t < |s.threads| && s.threads[t].pc.Merging? && s.threads[t].pc.j < |s.nodes|
    ensures var j, n := s.threads[t].pc.j, s.threads[t].node;
            WithinCacheClock(DoMergeElement(s, t), t) <==>
            WithinCacheClock(s, t) && (j != n ==> Wanted(s, t, j) <= s.nodes[n].clock[j])
  {
    var j, n, s' := s.threads[t].pc.j, s.threads[t].node, DoMergeElement(s, t);
    assert s'.threads[t].clock[j] == Max(s.threads[t].clock[j], Wanted(s, t, j));
    assert forall i: nat | i < |s.nodes| && i != j :: s'.threads[t].clock[i] == s.threads[t].clock[i];
    if WithinCacheClock(s', t) {
      assert j != n ==> s'.threads[t].clock[j] <= s.nodes[n].clock[j];
      forall i: nat | i < |s.nodes| && i != n ensures s.threads[t].clock[i] <= s.nodes[n].clock[i] {
        assert s'.threads[t].clock[i] <= s'.nodes[n].clock[i];
      }
    }
  }

  /** A merge ends within the cache clock exactly when it began so and each element it still reads is consumed. */
  lemma {:induction false} FinishWithinIff(s: State, t: nat)
    requires s.WF() && t < |s.threads| && s.threads[t].pc.Merging?
    ensures WithinCacheClock(FinishMerge(s, t), t) <==>
            && WithinCacheClock(s, t)
            && forall i: nat | s.threads[t].pc.j <= i < |s.nodes| && i != s.threads[t].node ::
                 Wanted(s, t, i) <= s.nodes[s.threads[t].node].clock[i]
    decreases |s.nodes| - s.threads[t].pc.j
  {
    var s1 := DoMergeElement(s, t);
    if s.threads[t].pc.j < |s.nodes| {
      FinishWithinIff(s1, t);
      MergeOne(s, t);
      assert forall i: nat | i < |s.nodes| :: Wanted(s1, t, i) == Wanted(s, t, i);
    } else {
      assert FinishMerge(s1, t) == s1;
    }
  }

  // ---- which stores to a location are unsafe ----

  /** Thread th is acquiring location x and will read it again. */
  ghost predicate ReadsLive(th: Thread, x: nat) {
    (th.pc.Acquiring? || th.pc.Merging?) && th.pc.byRef && th.pc.loc == x
  }

  /** The open acquire of th has waited for component i and may still merge it. */
  ghost predicate Passed(th: Thread, i: nat) {
    i != th.node && ((th.pc.Acquiring? && i in th.pc.done) || (th.pc.Merging? && th.pc.j <= i))
  }

  /** The clock of the thread is consumed, and so is what its open acquire has waited for, as it reads now. */
  ghost predicate SafeThread(s: State, t: nat)
    requires s.WF() && t < |s.threads|
  {
    && WithinCacheClock(s, t)
    && forall i: nat | i < |s.nodes| && Passed(s.threads[t], i) ::
         WaitOver(s.nodes[s.threads[t].node], t, i, Wanted(s, t, i))
  }

  ghost predicate AllSafe(s: State) {
    s.WF() && forall t: nat | t < |s.threads| :: SafeThread(s, t)
  }

  /** What a publishing store puts into the location. */
  ghost function Stored(s: State, t: nat, a: ThreadStep): nat
    requires s.WF() && t < |s.threads| && a.Publish? && ThreadPossible(s, t, a)
  {
    DoPublish(s, t, a.x, a.i, a.merge).locs[a.x][a.i]
  }

  /** Thread u has already waited for component i of location x, but not for the value v. */
  ghost predicate Overtaken(s: State, u: nat, x: nat, i: nat, v: nat)
    requires s.WF() && u < |s.threads| && i < |s.nodes|
  {
    ReadsLive(s.threads[u], x) && Passed(s.threads[u], i) && !WaitOver(s.nodes[s.threads[u].node], u, i, v)
  }

  ghost predicate Unsafe(s: State, step: Step)
    requires s.WF() && Possible(s, step)
  {
    step.ByThread? && step.a.Publish?
    && exists u: nat | u < |s.threads| :: Overtaken(s, u, step.a.x, step.a.i, Stored(s, step.t, step.a))
  }

  lemma OwnStepSafe(s: State, t: nat, a: ThreadStep)
    requires AllWaited(s) && t < |s.threads| && SafeThread(s, t) && ThreadPossible(s, t, a)
    requires !a.Publish? && !a.MergeElement?
    ensures SafeThread(ApplyThread(s, t, a), t)
  {
    ThreadStepFrame(s, t, a);
    if a.AssignClock? {
      AssignSafe(s, t);
    } else {
      OwnStepPassed(s, t, a);
    }
  }

  lemma AssignSafe(s: State, t: nat)
    requires s.WF() && t < |s.threads| && SafeThread(s, t) && s.threads[t].pc.Assigning?
    ensures SafeThread(DoAssignClock(s, t), t)
  {
  }

  lemma OwnStepPassed(s: State, t: nat, a: ThreadStep)
    requires s.WF() && t < |s.threads| && SafeThread(s, t) && ThreadPossible(s, t, a)
    requires !a.Publish? && !a.MergeElement? && !a.AssignClock?
    requires forall n: nat | n < |s.nodes| :: SameProgress(s.nodes[n], ApplyThread(s, t, a).nodes[n])
    ensures SafeThread(ApplyThread(s, t, a), t)
  {
    var s' := ApplyThread(s, t, a);
    var th, th' := s.threads[t], s'.threads[t];
    assert th'.clock == th.clock && th'.node == th.node && s'.locs == s.locs;
    assert SameProgress(s.nodes[th.node], s'.nodes[th.node]);
    forall i: nat | i < |s.nodes| && Passed(th', i)
      ensures WaitOver(s'.nodes[th.node], t, i, Wanted(s', t, i))
    {
      if !(a.CheckNode? && i == a.i) {
        assert Passed(th, i);
        assert WaitOver(s.nodes[th.node], t, i, Wanted(s, t, i));
      }
    }
  }

  lemma MergeStepSafe(s: State, t: nat)
    requires AllWaited(s) && t < |s.threads| && SafeThread(s, t) && s.threads[t].pc.Merging?
    ensures SafeThread(DoMergeElement(s, t), t)
  {
    var s', j, n := DoMergeElement(s, t), s.threads[t].pc.j, s.threads[t].node;
    assert HolderOk(s, n);
    if j < |s.nodes| {
      MergeOne(s, t);
      assert j != n ==> Passed(s.threads[t], j);
      forall i: nat | i < |s.nodes| && Passed(s'.threads[t], i) ensures WaitOver(s'.nodes[n], t, i, Wanted(s', t, i)) {
        assert Passed(s.threads[t], i);
      }
    }
  }

  /** A store to a location by thread u, judged by thread t. */
  lemma PublishSafeIff(s: State, u: nat, a: ThreadStep, t: nat)
    requires s.WF() && u < |s.threads| && t < |s.threads| && a.Publish? && ThreadPossible(s, u, a)
    requires SafeThread(s, t)
    ensures SafeThread(ApplyThread(s, u, a), t) <==> !Overtaken(s, t, a.x, a.i, Stored(s, u, a))
  {
    var s', th := ApplyThread(s, u, a), s.threads[t];
    assert s'.threads == s.threads && s'.nodes == s.nodes;
    forall i: nat | i < |s.nodes| && Passed(th, i)
      ensures Wanted(s', t, i) == if ReadsLive(th, a.x) && i == a.i then Stored(s, u, a) else Wanted(s, t, i)
      ensures WaitOver(s.nodes[th.node], t, i, Wanted(s, t, i))
    {
    }
  }

  lemma ConsumerStepSafe(s: State, n: nat, b: ConsumerStep, t: nat)
    requires AllWaited(s) && AllTrack(s) && n < |s.nodes| && ConsumerPossible(s, n, b)
    requires t < |s.threads| && SafeThread(s, t)
    ensures SafeThread(ApplyConsumer(s, n, b), t)
  {
    var s', m := ApplyConsumer(s, n, b), s.threads[t].node;
    ConsumerStepFrame(s, n, b);
    forall i: nat | i < |s.nodes| && i != m ensures s.nodes[m].clock[i] <= s'.nodes[m].clock[i] {
      StepAdvances(s, ByConsumer(n, b), m, i);
    }
    assert HolderOk(s, n);
    forall i: nat | i < |s.nodes| && Passed(s'.threads[t], i) ensures WaitOver(s'.nodes[m], t, i, Wanted(s', t, i)) {
      assert Passed(s.threads[t], i) ==> WaitOver(s.nodes[m], t, i, Wanted(s, t, i));
      ConsumerStepPassed(s, n, b, t, i);
    }
  }

  lemma ConsumerStepPassed(s: State, n: nat, b: ConsumerStep, t: nat, i: nat)
    requires s.WF() && n < |s.nodes| && ConsumerPossible(s, n, b)
    requires t < |s.threads| && i < |s.nodes| && Passed(ApplyConsumer(s, n, b).threads[t], i)
    requires Passed(s.threads[t], i) ==> WaitOver(s.nodes[s.threads[t].node], t, i, Wanted(s, t, i))
    requires s.nodes[s.threads[t].node].clock[i] <= ApplyConsumer(s, n, b).nodes[s.threads[t].node].clock[i]
    requires s.nodes[n].cons.HeldBy(t) ==> s.threads[t].node == n
    ensures var s' := ApplyConsumer(s, n, b); WaitOver(s'.nodes[s.threads[t].node], t, i, Wanted(s', t, i))
  {
    ConsumerStepFrame(s, n, b);
  }

  lemma CacheStepSafe(s: State, n: nat, c: CacheStep, t: nat)
    requires s.WF() && n < |s.nodes| && CachePossible(s, n, c) && t < |s.threads| && SafeThread(s, t)
    ensures SafeThread(ApplyCache(s, n, c), t)
  {
    CacheStepFrame(s, n, c);
    SafeFrame(s, ApplyCache(s, n, c), t);
  }

  lemma SafeFrame(s: State, s': State, t: nat)
    requires s.WF() && s'.WF() && |s'.nodes| == |s.nodes| && t < |s.threads| && |s'.threads| == |s.threads|
    requires s'.threads[t] == s.threads[t] && s'.locs == s.locs
    requires SameProgress(s.nodes[s.threads[t].node], s'.nodes[s.threads[t].node])
    requires SafeThread(s, t)
    ensures SafeThread(s', t)
  {
    var n := s.threads[t].node;
    forall i: nat | i < |s.nodes| && Passed(s.threads[t], i) ensures WaitOver(s'.nodes[n], t, i, Wanted(s', t, i)) {
      assert WaitOver(s.nodes[n], t, i, Wanted(s, t, i));
    }
  }

  lemma ThreadStepSafe(s: State, u: nat, a: ThreadStep, t: nat)
    requires AllWaited(s) && u < |s.threads| && ThreadPossible(s, u, a) && t < |s.threads| && SafeThread(s, t)
    requires a.Publish? ==> !Overtaken(s, t, a.x, a.i, Stored(s, u, a))
    ensures SafeThread(ApplyThread(s, u, a), t)
  {
    if a.Publish? {
      PublishSafeIff(s, u, a, t);
    } else if t == u && a.MergeElement? {
      MergeStepSafe(s, t);
    } else if t == u {
      OwnStepSafe(s, t, a);
    } else {
      ThreadStepFrame(s, u, a);
      OnlyPublishStores(s, u, a);
      SafeFrame(s, ApplyThread(s, u, a), t);
    }
  }

  lemma OnlyPublishStores(s: State, u: nat, a: ThreadStep)
    requires s.WF() && u < |s.threads| && ThreadPossible(s, u, a) && !a.Publish?
    ensures ApplyThread(s, u, a).locs == s.locs
  {
  }

  /** From a safe state exactly the unsafe stores lead out. */
  lemma StepSafeIff(s: State, step: Step)
    requires AllWaited(s) && AllTrack(s) && AllSafe(s) && Possible(s, step)
    ensures AllSafe(Apply(s, step)) <==> !Unsafe(s, step)
  {
    var s' := Apply(s, step);
    if Unsafe(s, step) {
      var u: nat :| u < |s.threads| && Overtaken(s, u, step.a.x, step.a.i, Stored(s, step.t, step.a));
      PublishSafeIff(s, step.t, step.a, u);
    } else {
      forall t: nat | t < |s.threads| ensures SafeThread(s', t) {
        match step
        case ByCache(n, c) => CacheStepSafe(s, n, c, t);
        case ByThread(u, a) => ThreadStepSafe(s, u, a, t);
        case ByConsumer(n, b) => ConsumerStepSafe(s, n, b, t);
      }
    }
  }

  lemma MoveSafeIff(s: State, step: Step, s': State)
    requires Inv(s) && AllSafe(s) && Moves(s, step, s')
    ensures AllSafe(s') <==> !Unsafe(s, step)
  {
    StepSafeIff(s, step);
  }

  ghost predicate UnsafeAt(states: seq<State>, steps: seq<Step>, k: nat)
    requires k < |steps| && k < |states|
  {
    states[k].WF() && Possible(states[k], steps[k]) && Unsafe(states[k], steps[k])
  }

  lemma InitSafe(s: State)
    requires Init(s)
    ensures AllSafe(s)
  {
    InitInv(s);
    forall t: nat | t < |s.threads| ensures SafeThread(s, t) {
      assert FreshThread(s, t);
    }
  }

  lemma {:induction false} RunSafe(states: seq<State>, steps: seq<Step>, k: nat)
    requires IsRun(states, steps) && k < |states|
    requires forall j: nat | j < k :: !UnsafeAt(states, steps, j)
    ensures AllSafe(states[k])
  {
    if k == 0 {
      InitSafe(states[0]);
    } else {
      RunSafe(states, steps, k - 1);
      RunInv(states, steps, k - 1);
      assert MovesAt(states, steps, k - 1);
      assert !UnsafeAt(states, steps, k - 1);
      MoveSafeIff(states[k - 1], steps[k - 1], states[k]);
    }
  }

  /** A run stays safe exactly when none of its stores to locations overtakes an open acquire. */
  lemma SafeIffNoneUnsafe(states: seq<State>, steps: seq<Step>)
    requires IsRun(states, steps)
    ensures (forall k: nat | k < |states| :: AllSafe(states[k])) <==>
            (forall k: nat | k < |steps| :: !UnsafeAt(states, steps, k))
  {
    if forall k: nat | k < |steps| :: !UnsafeAt(states, steps, k) {
      forall k: nat | k < |states| ensures AllSafe(states[k]) {
        RunSafe(states, steps, k);
      }
    }
    if forall k: nat | k < |states| :: AllSafe(states[k]) {
      forall k: nat | k < |steps| ensures !UnsafeAt(states, steps, k) {
        RunInv(states, steps, k);
        assert MovesAt(states, steps, k) && AllSafe(states[k + 1]);
        MoveSafeIff(states[k], steps[k], states[k + 1]);
      }
    }
  }

  // ---- locations nobody writes to during an acquire by reference ----

  /** The step does not write to a location that some thread is acquiring by reference. */
  ghost predicate Undisturbed(s: State, step: Step) {
    step.ByThread? && step.a.Publish? ==> forall u: nat | u < |s.threads| :: !ReadsLive(s.threads[u], step.a.x)
  }

  /** While nobody writes to a location that is being acquired by reference, as holds for CXLMutex.lock because
      only the holder writes, every thread clock stays within the cache clock of its node. */
  lemma UndisturbedStaysWithin(states: seq<State>, steps: seq<Step>, k: nat, t: nat)
    requires IsRun(states, steps) && k < |states| && t < |states[k].threads|
    requires forall j: nat | j < k :: Undisturbed(states[j], steps[j])
    ensures states[k].WF() && WithinCacheClock(states[k], t)
  {
    RunSafe(states, steps, k);
    assert SafeThread(states[k], t);
  }

  /** The clock is what was waited for, and the open acquire reads what it read first. */
  ghost predicate Steady(s: State, t: nat)
    requires s.WF() && t < |s.threads|
  {
    var th := s.threads[t];
    && (forall i: nat | i < |s.nodes| && i != th.node :: th.clock[i] == th.seen[i])
    && (th.pc.Acquiring? || th.pc.Merging? ==> th.pc.byRef ==> s.locs[th.pc.loc] == th.pc.target)
    && (th.pc.Acquiring? ==> forall i: nat | i < |s.nodes| && i in th.pc.done :: th.pc.waited[i] == th.pc.target[i])
    && (th.pc.Merging? ==> forall i: nat | i < |s.nodes| && i != th.node :: th.pc.waited[i] == th.pc.target[i])
  }

  ghost predicate AllSteady(s: State) {
    s.WF() && forall t: nat | t < |s.threads| :: Steady(s, t)
  }

  lemma OwnStepSteady(s: State, t: nat, a: ThreadStep)
    requires s.WF() && t < |s.threads| && Steady(s, t) && ThreadPossible(s, t, a) && !a.Publish?
    ensures Steady(ApplyThread(s, t, a), t)
  {
    OnlyPublishStores(s, t, a);
    if a.MergeElement? {
      MergeStepSteady(s, t);
    }
  }

  lemma MergeStepSteady(s: State, t: nat)
    requires s.WF() && t < |s.threads| && Steady(s, t) && s.threads[t].pc.Merging?
    ensures Steady(DoMergeElement(s, t), t)
  {
    var j := s.threads[t].pc.j;
    assert j < |s.nodes| ==> Wanted(s, t, j) == s.threads[t].pc.target[j];
  }

  lemma OtherStepSteady(s: State, s': State, t: nat)
    requires s.WF() && SameShape(s, s') && t < |s.threads| && Steady(s, t)
    requires s'.threads[t] == s.threads[t]
    requires forall x: nat | x < |s.locs| && ReadsLive(s.threads[t], x) :: s'.locs[x] == s.locs[x]
    ensures Steady(s', t)
  {
    var pc := s.threads[t].pc;
    assert (pc.Acquiring? || pc.Merging?) && pc.byRef ==> ReadsLive(s.threads[t], pc.loc);
  }

  lemma ConsumerStepSteady(s: State, n: nat, b: ConsumerStep, t: nat)
    requires s.WF() && n < |s.nodes| && ConsumerPossible(s, n, b) && t < |s.threads| && Steady(s, t)
    ensures Steady(ApplyConsumer(s, n, b), t)
  {
    ConsumerStepFrame(s, n, b);
  }

  lemma StepSteady(s: State, step: Step)
    requires AllSteady(s) && Possible(s, step) && Undisturbed(s, step)
    ensures AllSteady(Apply(s, step))
  {
    forall t: nat | t < |s.threads| ensures Steady(Apply(s, step), t) {
      match step {
        case ByCache(n, c) =>
          CacheStepFrame(s, n, c);
          OtherStepSteady(s, Apply(s, step), t);
        case ByThread(u, a) =>
          ThreadStepFrame(s, u, a);
          if a.Publish? {
            assert !ReadsLive(s.threads[t], a.x);
            OtherStepSteady(s, Apply(s, step), t);
          } else if u == t {
            OwnStepSteady(s, t, a);
          } else {
            OnlyPublishStores(s, u, a);
            OtherStepSteady(s, Apply(s, step), t);
          }
        case ByConsumer(n, b) => ConsumerStepSteady(s, n, b, t);
      }
    }
  }

  lemma InitSteady(s: State)
    requires Init(s)
    ensures AllSteady(s)
  {
    InitInv(s);
    forall t: nat | t < |s.threads| ensures Steady(s, t) {
      assert FreshThread(s, t);
    }
  }

  // ---- the race-freedom check on the real thread clock ----

  /** Every published log of another node that names line l lies below the thread clock. */
  ghost predicate CoveredByThreadClock(s: State, t: nat, l: Line)
    requires s.WF() && t < |s.threads|
  {
    forall i: nat, k: nat | i < |s.nodes| && i != s.threads[t].node && k < |s.rings[i]| && Holds(s.rings[i], k, l) ::
      k < s.threads[t].clock[i]
  }

  ghost predicate ClockRaceFree(s: State, t: nat, l: Line)
    requires s.WF() && t < |s.threads|
  {
    !PendingElsewhere(s, s.threads[t].node, l) && CoveredByThreadClock(s, t, l)
  }

  lemma ClockRaceFreeIff(s: State, t: nat, l: Line)
    requires s.WF() && t < |s.threads| && Steady(s, t)
    ensures ClockRaceFree(s, t, l) <==> RaceFree(s, t, l)
  {
    assert forall i: nat | i < |s.nodes| && i != s.threads[t].node :: s.threads[t].clock[i] == s.threads[t].seen[i];
  }

  ghost predicate ClockMoves(s: State, step: Step, s': State) {
    && s.WF() && Possible(s, step) && Undisturbed(s, step)
    && (step.ByThread? && (step.a.Load? || step.a.Store?) ==> ClockRaceFree(s, step.t, step.a.l))
    && s' == Apply(s, step)
  }

  /** A run in which accesses are judged by the real thread clock, and locations are undisturbed. */
  ghost predicate IsClockRun(states: seq<State>, steps: seq<Step>) {
    && |states| == |steps| + 1
    && Init(states[0])
    && forall k: nat | k < |steps| :: ClockMovesAt(states, steps, k)
  }

  ghost predicate ClockMovesAt(states: seq<State>, steps: seq<Step>, k: nat)
    requires |states| == |steps| + 1 && k < |steps|
  {
    ClockMoves(states[k], steps[k], states[k + 1])
  }

  lemma ClockMoveIsMove(s: State, step: Step, s': State)
    requires AllSteady(s) && ClockMoves(s, step, s')
    ensures Moves(s, step, s') && AllSteady(s')
  {
    StepSteady(s, step);
    if step.ByThread? && (step.a.Load? || step.a.Store?) {
      ClockRaceFreeIff(s, step.t, step.a.l);
    }
  }

  lemma {:induction false} ClockRunSteady(states: seq<State>, steps: seq<Step>, k: nat)
    requires IsClockRun(states, steps) && k < |states|
    ensures AllSteady(states[k])
  {
    if k == 0 {
      InitSteady(states[0]);
    } else {
      ClockRunSteady(states, steps, k - 1);
      assert ClockMovesAt(states, steps, k - 1);
      ClockMoveIsMove(states[k - 1], steps[k - 1], states[k]);
    }
  }

  lemma ClockRunIsRun(states: seq<State>, steps: seq<Step>)
    requires IsClockRun(states, steps)
    ensures IsRun(states, steps)
  {
    forall k: nat | k < |steps| ensures MovesAt(states, steps, k) {
      ClockRunSteady(states, steps, k);
      assert ClockMovesAt(states, steps, k);
      ClockMoveIsMove(states[k], steps[k], states[k + 1]);
    }
  }

  /** Where locations are undisturbed, the check on the real thread clock is enough for coherence. */
  lemma ClockRunsAreCoherent(states: seq<State>, steps: seq<Step>, k: nat)
    requires IsClockRun(states, steps) && k < |steps| && steps[k].ByThread?
    ensures steps[k].a.Load? ==>
              steps[k].a.v == Word(At(Reference(states[0].mem, steps[..k]), steps[k].a.l), steps[k].a.w)
    ensures steps[k].a.Store? ==>
              var s, t := states[k], steps[k].t;
              && s.WF() && t < |s.threads|
              && Visible(s, s.threads[t].node, steps[k].a.l) == At(Reference(states[0].mem, steps[..k]), steps[k].a.l)
  {
    ClockRunIsRun(states, steps);
    AccessesAreCoherent(states, steps, k);
  }
}
