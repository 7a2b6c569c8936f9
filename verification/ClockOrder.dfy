/** Thread clocks follow the order of happens-before: whoever comes later has at least the clock. */
module ClockOrder {
  import opened Clocks
  import opened Broadcast
  import opened Protocol
  import opened Progress
  import opened Threads
  import opened Waiting
  import opened Coherence
  import opened CoherenceTheorems
  import opened HappensBefore
  import opened RaceFreedom
  import opened Order

  ghost predicate ClockAt(states: seq<State>, k: nat, u: nat, i: nat, c: nat)
    requires k < |states|
  {
    u < |states[k].threads| && i < |states[k].threads[u].clock| && c <= states[k].threads[u].clock[i]
  }

  ghost predicate LocClockAt(states: seq<State>, k: nat, x: nat, i: nat, c: nat)
    requires k < |states|
  {
    x < |states[k].locs| && i < |states[k].locs[x]| && c <= states[k].locs[x][i]
  }

  lemma {:induction false} ClockLater(
      states: seq<State>, traces: seq<Trace>, steps: seq<Step>, j: nat, k: nat, u: nat, i: nat, c: nat)
    requires IsTraced(states, traces, steps) && j <= k < |traces| && ClockAt(states, j, u, i, c)
    ensures ClockAt(states, k, u, i, c)
    decreases k
  {
    if j < k {
      ClockLater(states, traces, steps, j, k - 1, u, i, c);
      RunTame(states, traces, steps, k - 1);
      assert PlainAt(states, steps, k - 1);
      ThreadClockAdvances(states[k - 1], steps[k - 1], u);
    }
  }

  lemma LocStep(s: State, step: Step, x: nat, i: nat)
    requires s.WF() && Possible(s, step) && x < |s.locs| && i < |s.nodes|
    requires !(step.ByThread? && step.a == Publish(x, i, false))
    ensures s.locs[x][i] <= Apply(s, step).locs[x][i]
  {
    match step
    case ByCache(n, c) => CacheStepFrame(s, n, c);
    case ByThread(t, a) =>
    case ByConsumer(n, b) => ConsumerStepFrame(s, n, b);
  }

  lemma {:induction false} LocClockLater(states: seq<State>, steps: seq<Step>, p: nat, k: nat, x: nat, i: nat, c: nat)
    requires IsPlainRun(states, steps) && p <= k < |states| && LocClockAt(states, p, x, i, c)
    requires forall q: nat | p <= q < k :: !Overwrites(steps, q, x, i)
    ensures LocClockAt(states, k, x, i, c)
    decreases k
  {
    if p < k {
      LocClockLater(states, steps, p, k - 1, x, i, c);
      assert PlainAt(states, steps, k - 1) && !Overwrites(steps, k - 1, x, i);
      LocStep(states[k - 1], steps[k - 1], x, i);
    }
  }

  lemma PublishStep(s: State, t: nat, a: ThreadStep)
    requires s.WF() && t < |s.threads| && a.Publish? && ThreadPossible(s, t, a)
    ensures s.threads[t].clock[a.i] <= ApplyThread(s, t, a).locs[a.x][a.i]
  {
  }

  lemma OfferHoldsClock(states: seq<State>, traces: seq<Trace>, steps: seq<Step>,
                        t: nat, x: nat, m: nat, b: nat, stop: nat, k: nat, i: nat, c: nat)
    requires IsTraced(states, traces, steps) && m + 1 < |traces| && b <= k <= stop && k < |traces|
    requires ClockAt(states, m + 1, t, i, c) && Offered(steps, t, x, i, m, b, stop)
    ensures LocClockAt(states, k, x, i, c)
  {
    var p: nat :| m < p < b && OfferedAt(steps, t, x, i, p, stop);
    ClockLater(states, traces, steps, m + 1, p, t, i, c);
    assert PlainAt(states, steps, p);
    PublishStep(states[p], t, steps[p].a);
    LocClockLater(states, steps, p + 1, k, x, i, c);
  }

  /** While thread u acquires x, component i of its clock will become at least c; afterwards it is. */
  ghost predicate Gains(s: State, u: nat, x: nat, byRef: bool, i: nat, c: nat)
    requires s.WF() && u < |s.threads| && i < |s.nodes|
  {
    var th := s.threads[u];
    if !Open(th) then c <= th.clock[i]
    else
      && th.pc.loc == x && th.pc.byRef == byRef && c <= Wanted(s, u, i)
      && (th.pc.Merging? && i < th.pc.j ==> c <= th.clock[i])
  }

  lemma OwnGains(s: State, u: nat, a: ThreadStep, x: nat, byRef: bool, i: nat, c: nat)
    requires s.WF() && u < |s.threads| && ThreadPossible(s, u, a) && OfAcquire(a)
    requires i < |s.nodes| && Gains(s, u, x, byRef, i, c)
    ensures Gains(ApplyThread(s, u, a), u, x, byRef, i, c)
  {
  }

  lemma OtherGains(s: State, step: Step, u: nat, x: nat, byRef: bool, i: nat, c: nat)
    requires s.WF() && Possible(s, step) && u < |s.threads| && !(step.ByThread? && step.t == u)
    requires i < |s.nodes| && Gains(s, u, x, byRef, i, c)
    requires byRef ==> x < |Apply(s, step).locs| && c <= Apply(s, step).locs[x][i]
    ensures Gains(Apply(s, step), u, x, byRef, i, c)
  {
    match step
    case ByCache(n, d) => CacheStepFrame(s, n, d);
    case ByThread(t, a) => ThreadStepFrame(s, t, a);
    case ByConsumer(n, b) => ConsumerStepFrame(s, n, b);
  }

  ghost predicate GainsAt(states: seq<State>, k: nat, u: nat, x: nat, byRef: bool, i: nat, c: nat)
    requires k < |states|
  {
    && states[k].WF() && u < |states[k].threads| && i < |states[k].nodes|
    && Gains(states[k], u, x, byRef, i, c)
  }

  lemma GainsNext(states: seq<State>, steps: seq<Step>, k: nat, u: nat, x: nat, byRef: bool, i: nat, c: nat)
    requires IsPlainRun(states, steps) && k < |steps| && GainsAt(states, k, u, x, byRef, i, c)
    requires By(steps, k, u) ==> OfAcquire(steps[k].a)
    requires !By(steps, k, u) && byRef ==> LocClockAt(states, k + 1, x, i, c)
    ensures GainsAt(states, k + 1, u, x, byRef, i, c)
  {
    assert PlainAt(states, steps, k);
    if By(steps, k, u) {
      OwnGains(states[k], u, steps[k].a, x, byRef, i, c);
    } else {
      OtherGains(states[k], steps[k], u, x, byRef, i, c);
    }
  }

  lemma {:induction false} GainsLater(states: seq<State>, traces: seq<Trace>, steps: seq<Step>,
                                      m: nat, k: nat, h: Handover, i: nat, c: nat, q: nat)
    requires IsTraced(states, traces, steps) && k < |traces| && HandsOverBy(steps, |states[0].nodes|, m, k, h)
    requires i < |states[0].nodes| && ClockAt(states, m + 1, h.t, i, c) && h.b < q <= h.e + 1
    ensures GainsAt(states, q, h.u, h.x, h.byRef, i, c)
    decreases q
  {
    assert Offered(steps, h.t, h.x, i, m, h.b, h.Stop());
    if q == h.b + 1 {
      OfferHoldsClock(states, traces, steps, h.t, h.x, m, h.b, h.Stop(), h.b, i, c);
      assert PlainAt(states, steps, h.b);
    } else {
      GainsLater(states, traces, steps, m, k, h, i, c, q - 1);
      if h.byRef && q <= h.e {
        OfferHoldsClock(states, traces, steps, h.t, h.x, m, h.b, h.Stop(), q, i, c);
      }
      GainsNext(states, steps, q - 1, h.u, h.x, h.byRef, i, c);
    }
  }

  lemma DirectlyClock(states: seq<State>, traces: seq<Trace>, steps: seq<Step>, m: nat, k: nat, i: nat, c: nat)
    requires IsTraced(states, traces, steps) && k < |traces| && Directly(steps, |states[0].nodes|, m, k)
    requires i < |states[0].nodes| && m < k < |steps| && steps[m].ByThread? && steps[k].ByThread?
    requires ClockAt(states, m + 1, steps[m].t, i, c)
    ensures ClockAt(states, k, steps[k].t, i, c)
  {
    if SameThread(steps, m, k) {
      ClockLater(states, traces, steps, m + 1, k, steps[m].t, i, c);
    } else {
      var h: Handover :| HandsOverBy(steps, |states[0].nodes|, m, k, h);
      GainsLater(states, traces, steps, m, k, h, i, c, h.e + 1);
      ClosedAt(states, steps, m, k, h);
      ClockLater(states, traces, steps, h.e + 1, k, h.u, i, c);
    }
  }

  lemma {:induction false} BeforeClock(
      states: seq<State>, traces: seq<Trace>, steps: seq<Step>, j: nat, k: nat, i: nat, c: nat)
    requires IsTraced(states, traces, steps) && k < |traces| && Before(steps, |states[0].nodes|, j, k)
    requires i < |states[0].nodes| && j < k < |steps| && steps[j].ByThread? && steps[k].ByThread?
    requires ClockAt(states, j + 1, steps[j].t, i, c)
    ensures ClockAt(states, k, steps[k].t, i, c)
    decreases k
  {
    var n := |states[0].nodes|;
    if Directly(steps, n, j, k) {
      DirectlyClock(states, traces, steps, j, k, i, c);
    } else {
      var m: nat :| j < m < k && Before(steps, n, j, m) && Directly(steps, n, m, k);
      BeforeIs(steps, n, j, m);
      BeforeClock(states, traces, steps, j, m, i, c);
      ClockLater(states, traces, steps, m, m + 1, steps[m].t, i, c);
      DirectlyClock(states, traces, steps, m, k, i, c);
    }
  }

  lemma ClockOfStep(states: seq<State>, steps: seq<Step>, j: nat, k: nat)
    requires IsPlainRun(states, steps) && j <= k <= j + 1 && k < |steps| && steps[j].ByThread?
    ensures states[k].WF() && steps[j].t < |states[k].threads|
    ensures |states[k].threads[steps[j].t].clock| == |states[0].nodes|
  {
    assert PlainAt(states, steps, j) && PlainAt(states, steps, k);
    RunWorld(states, steps, j);
    RunWorld(states, steps, k);
  }

  /** If step j happens before step k, the thread of step k has at least the clock that the thread of step j had
      after it. */
  lemma ClocksFollowOrder(states: seq<State>, steps: seq<Step>, j: nat, k: nat)
    requires IsPlainRun(states, steps) && Before(steps, |states[0].nodes|, j, k)
    ensures j < k < |steps| && steps[j].ByThread? && steps[k].ByThread?
    ensures steps[j].t < |states[j + 1].threads| && steps[k].t < |states[k].threads|
    ensures Leq(states[j + 1].threads[steps[j].t].clock, states[k].threads[steps[k].t].clock)
  {
    var traces := WithTraces(states, steps, |steps|);
    BeforeIs(steps, |states[0].nodes|, j, k);
    ClockOfStep(states, steps, j, j + 1);
    ClockOfStep(states, steps, k, k);
    var c := states[j + 1].threads[steps[j].t].clock;
    forall i: nat | i < |c| ensures c[i] <= states[k].threads[steps[k].t].clock[i] {
      BeforeClock(states, traces, steps, j, k, i, c[i]);
    }
  }
}
