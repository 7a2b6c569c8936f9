/**
 Happens-before read off the list of steps: program order, and from a thread that publishes its clock to a
 location to a thread whose acquire of the location begins before that is overwritten.  Clocks and histories
 follow this order, so a program whose conflicting accesses it orders sees one coherent memory.
 */
module Order {
  import opened Clocks
  import opened Broadcast
  import opened Protocol
  import opened Progress
  import opened Threads
  import opened Waiting
  import opened Coherence
  import opened CoherenceTheorems
  import opened HappensBefore
  import opened RaceFreedom

  // ---- the order, from the steps alone ----

  ghost predicate By(steps: seq<Step>, k: nat, t: nat) {
    k < |steps| && steps[k].ByThread? && steps[k].t == t
  }

  ghost predicate Publishes(steps: seq<Step>, k: nat, t: nat, x: nat, i: nat) {
    By(steps, k, t) && steps[k].a.Publish? && steps[k].a.x == x && steps[k].a.i == i
  }

  /** Step k replaces element i of location x, whatever was there. */
  ghost predicate Overwrites(steps: seq<Step>, k: nat, x: nat, i: nat) {
    k < |steps| && steps[k].ByThread? && steps[k].a == Publish(x, i, false)
  }

  ghost predicate OfferedAt(steps: seq<Step>, t: nat, x: nat, i: nat, p: nat, stop: nat) {
    Publishes(steps, p, t, x, i) && forall q: nat | p < q < stop :: !Overwrites(steps, q, x, i)
  }

  /** Between steps m and b thread t publishes element i of x, which nobody overwrites before step `stop`. */
  ghost predicate Offered(steps: seq<Step>, t: nat, x: nat, i: nat, m: nat, b: nat, stop: nat) {
    exists p: nat | m < p < b :: OfferedAt(steps, t, x, i, p, stop)
  }

  ghost predicate OfAcquire(a: ThreadStep) {
    a.CheckNode? || a.BeginMerge? || a.MergeElement?
  }

  /** Thread u acquires x: it begins in step b, and its last step before step k is step e, still of the acquire. */
  ghost predicate Acquires(steps: seq<Step>, u: nat, x: nat, byRef: bool, b: nat, e: nat, k: nat) {
    && b < e < k < |steps| && steps[b] == ByThread(u, BeginAcquire(x, byRef)) && By(steps, e, u)
    && (forall q: nat | b < q <= e && By(steps, q, u) :: OfAcquire(steps[q].a))
    && (forall q: nat | e < q < k :: !By(steps, q, u))
    && By(steps, k, u) && !OfAcquire(steps[k].a)
  }

  datatype Handover = Handover(t: nat, u: nat, x: nat, byRef: bool, b: nat, e: nat)
  {
    /** Until when the location must not be overwritten. */
    ghost function Stop(): nat {
      if byRef then e else b
    }
  }

  /** After step m thread t publishes all n elements of a location, and u's acquire of it, which ends before its
      step k, finds them: they are not overwritten before they are copied, or before the last one is read. */
  ghost predicate HandsOverBy(steps: seq<Step>, n: nat, m: nat, k: nat, h: Handover) {
    && By(steps, m, h.t) && m < h.b && Acquires(steps, h.u, h.x, h.byRef, h.b, h.e, k)
    && forall i: nat | i < n :: Offered(steps, h.t, h.x, i, m, h.b, h.Stop())
  }

  ghost predicate HandsOver(steps: seq<Step>, n: nat, m: nat, k: nat) {
    exists h: Handover :: HandsOverBy(steps, n, m, k, h)
  }

  ghost predicate SameThread(steps: seq<Step>, m: nat, k: nat) {
    m < k < |steps| && steps[m].ByThread? && steps[k].ByThread? && steps[m].t == steps[k].t
  }

  ghost predicate Directly(steps: seq<Step>, n: nat, m: nat, k: nat) {
    SameThread(steps, m, k) || HandsOver(steps, n, m, k)
  }

  /** Step j happens before step k, on n nodes. */
  ghost predicate Before(steps: seq<Step>, n: nat, j: nat, k: nat)
    decreases k
  {
    Directly(steps, n, j, k) || exists m: nat | j < m < k :: Before(steps, n, j, m) && Directly(steps, n, m, k)
  }

  // ---- runs, without any assumption on the program ----

  ghost predicate PlainAt(states: seq<State>, steps: seq<Step>, k: nat)
    requires |states| == |steps| + 1 && k < |steps|
  {
    states[k].WF() && Possible(states[k], steps[k]) && states[k + 1] == Apply(states[k], steps[k])
  }

  ghost predicate IsPlainRun(states: seq<State>, steps: seq<Step>) {
    |states| == |steps| + 1 && Init(states[0]) && forall k: nat | k < |steps| :: PlainAt(states, steps, k)
  }

  ghost predicate TracedAt(states: seq<State>, traces: seq<Trace>, steps: seq<Step>, k: nat)
    requires |states| == |steps| + 1 && k < |steps| && k + 1 < |traces|
  {
    && Sized(states[k], traces[k]) && Possible(states[k], steps[k])
    && traces[k + 1] == Track(states[k], traces[k], steps[k])
  }

  /** The first |traces| - 1 steps of the run, with the histories. */
  ghost predicate IsTraced(states: seq<State>, traces: seq<Trace>, steps: seq<Step>) {
    && IsPlainRun(states, steps) && 0 < |traces| <= |states|
    && FreshTrace(states[0], traces[0])
    && forall k: nat | k + 1 < |traces| :: TracedAt(states, traces, steps, k)
  }

  /** The part of the invariant that does not depend on race freedom. */
  ghost predicate Tame(s: State, g: Trace) {
    PcsOk(s) && AllTrack(s) && AllGenuine(s) && AllBelow(s) && HbInv(s, g)
  }

  lemma InitTame(s: State, g: Trace)
    requires Init(s) && FreshTrace(s, g)
    ensures Tame(s, g)
  {
    InitFull(s, g);
  }

  lemma StepKeepsTame(s: State, g: Trace, step: Step)
    requires Tame(s, g) && Possible(s, step)
    ensures Tame(Apply(s, step), Track(s, g, step))
  {
    StepPcs(s, step);
    StepTracks(s, step);
    StepGenuine(s, step);
    StepBelow(s, step);
    StepKeepsHb(s, g, step);
  }

  lemma {:induction false} RunTame(states: seq<State>, traces: seq<Trace>, steps: seq<Step>, k: nat)
    requires IsTraced(states, traces, steps) && k < |traces|
    ensures Tame(states[k], traces[k])
  {
    if k == 0 {
      InitTame(states[0], traces[0]);
    } else {
      RunTame(states, traces, steps, k - 1);
      assert PlainAt(states, steps, k - 1) && TracedAt(states, traces, steps, k - 1);
      StepKeepsTame(states[k - 1], traces[k - 1], steps[k - 1]);
    }
  }

  /** Threads stay on their nodes, and there are always as many of everything. */
  ghost predicate SameWorld(s: State, s': State) {
    && |s'.threads| == |s.threads| && |s'.nodes| == |s.nodes| && |s'.locs| == |s.locs|
    && forall t: nat | t < |s.threads| :: s'.threads[t].node == s.threads[t].node
  }

  lemma StepWorld(s: State, step: Step)
    requires s.WF() && Possible(s, step)
    ensures SameWorld(s, Apply(s, step))
  {
    match step
    case ByCache(n, c) => CacheStepFrame(s, n, c);
    case ByThread(t, a) => ThreadStepFrame(s, t, a);
    case ByConsumer(n, b) => ConsumerStepFrame(s, n, b);
  }

  lemma {:induction false} RunWorld(states: seq<State>, steps: seq<Step>, k: nat)
    requires IsPlainRun(states, steps) && k < |states|
    ensures SameWorld(states[0], states[k])
  {
    if k > 0 {
      RunWorld(states, steps, k - 1);
      assert PlainAt(states, steps, k - 1);
      StepWorld(states[k - 1], steps[k - 1]);
    }
  }

  // ---- what a thread knows of the stores of another ----

  /** How many stores of thread v thread u knows, which for itself are all. */
  ghost function KnownAt(g: Trace, u: nat, v: nat): nat
    requires u < |g.ths| && v < |g.ths[u].hb|
  {
    if u == v then |g.ths[u].stores| else g.ths[u].hb[v]
  }

  lemma KnownGrows(s: State, g: Trace, step: Step, u: nat, v: nat)
    requires Sized(s, g) && Possible(s, step) && u < |s.threads| && v < |s.threads|
    ensures var g' := Track(s, g, step);
            |g'.ths| == |g.ths| && |g'.ths[u].hb| == |s.threads| && KnownAt(g, u, v) <= KnownAt(g', u, v)
  {
    match step
    case ByCache(n, c) =>
    case ByThread(t, a) =>
      if t == u {
        OwnKnownGrows(s, g, u, a, v);
      } else {
        OthersKnown(s, g, t, a, u);
      }
    case ByConsumer(n, b) =>
  }

  lemma OwnKnownGrows(s: State, g: Trace, u: nat, a: ThreadStep, v: nat)
    requires Sized(s, g) && u < |s.threads| && ThreadPossible(s, u, a) && v < |s.threads|
    ensures var g' := TrackThread(s, g, u, a);
            |g'.ths| == |g.ths| && |g'.ths[u].hb| == |s.threads| && KnownAt(g, u, v) <= KnownAt(g', u, v)
  {
  }

  lemma OthersKnown(s: State, g: Trace, t: nat, a: ThreadStep, u: nat)
    requires Sized(s, g) && t < |s.threads| && ThreadPossible(s, t, a) && u < |s.threads| && u != t
    ensures |TrackThread(s, g, t, a).ths| == |g.ths| && TrackThread(s, g, t, a).ths[u] == g.ths[u]
  {
  }

  /** When a thread publishes, all its stores are in logs. */
  lemma AllFlushed(s: State, g: Trace, t: nat)
    requires PcsOk(s) && HbInv(s, g) && t < |s.threads| && s.threads[t].pc.Idle? && s.threads[t].recent == 0
    ensures g.ths[t].flushed == |g.ths[t].stores|
  {
    assert OwnOk(s, g, t) && PcOk(s.threads[t], s.rings[s.threads[t].node]);
    if g.ths[t].flushed != |g.ths[t].stores| {
      SomeLine(g.ths[t].stores, g.ths[t].flushed);
    }
  }

  lemma SomeLine(stores: seq<Line>, from: nat)
    requires from < |stores|
    ensures LinesOf(stores, from, |stores|) != {}
  {
    assert stores[from] in LinesOf(stores, from, |stores|);
  }

  /** A published element carries all that its publisher knows of the threads of that node, merged or not. */
  lemma PublishKnows(s: State, g: Trace, t: nat, a: ThreadStep, v: nat)
    requires PcsOk(s) && HbInv(s, g) && t < |s.threads| && a.Publish? && ThreadPossible(s, t, a)
    requires v < |s.threads| && s.threads[v].node == a.i
    ensures KnownAt(g, t, v) <= TrackThread(s, g, t, a).locs[a.x][v]
  {
    AllFlushed(s, g, t);
  }

  lemma LocKeeps(s: State, g: Trace, step: Step, x: nat, v: nat)
    requires Sized(s, g) && Possible(s, step) && x < |s.locs| && v < |s.threads|
    requires !(step.ByThread? && step.a == Publish(x, s.threads[v].node, false))
    ensures var g' := Track(s, g, step);
            |g'.locs| == |g.locs| && |g'.locs[x]| == |s.threads| && g.locs[x][v] <= g'.locs[x][v]
  {
  }

  // ---- an acquire that finds at least c ----

  ghost predicate Open(th: Thread) {
    th.pc.Acquiring? || th.pc.Merging?
  }

  /** While thread u acquires x, it will learn at least c stores of thread v; afterwards it knows them. */
  ghost predicate Learns(s: State, g: Trace, u: nat, x: nat, byRef: bool, v: nat, c: nat)
    requires Sized(s, g) && u < |s.threads| && v < |s.threads|
  {
    var th, h, n := s.threads[u], g.ths[u], s.threads[v].node;
    if !Open(th) then c <= h.hb[v]
    else
      && th.pc.loc == x && th.pc.byRef == byRef && c <= WantedHb(s, g, u, v)
      && (n != th.node && (th.pc.Acquiring? ==> n in th.pc.done) ==> c <= h.waited[v])
      && (th.pc.Merging? && n < th.pc.j ==> c <= h.hb[v])
  }

  lemma BeginLearns(s: State, g: Trace, u: nat, x: nat, byRef: bool, v: nat, c: nat)
    requires Sized(s, g) && u < |s.threads| && ThreadPossible(s, u, BeginAcquire(x, byRef))
    requires v < |s.threads| && c <= g.locs[x][v]
    requires Sized(DoBeginAcquire(s, u, x, byRef), TrackThread(s, g, u, BeginAcquire(x, byRef)))
    ensures Learns(DoBeginAcquire(s, u, x, byRef), TrackThread(s, g, u, BeginAcquire(x, byRef)), u, x, byRef, v, c)
  {
    ThreadStepFrame(s, u, BeginAcquire(x, byRef));
  }

  lemma CheckLearns(s: State, g: Trace, u: nat, i: nat, x: nat, byRef: bool, v: nat, c: nat)
    requires Sized(s, g) && u < |s.threads| && s.threads[u].pc.Acquiring? && i < |s.nodes|
    requires v < |s.threads| && Learns(s, g, u, x, byRef, v, c)
    requires Sized(WithThread(s, u, NodeDone(s, u, i)), WithHistory(g, u, Waits(s, g, u, i)))
    ensures Learns(WithThread(s, u, NodeDone(s, u, i)), WithHistory(g, u, Waits(s, g, u, i)), u, x, byRef, v, c)
  {
  }

  lemma MergeLearns(s: State, g: Trace, u: nat, x: nat, byRef: bool, v: nat, c: nat)
    requires Sized(s, g) && u < |s.threads| && s.threads[u].pc.Merging?
    requires v < |s.threads| && Learns(s, g, u, x, byRef, v, c)
    requires Sized(DoMergeElement(s, u), TrackThread(s, g, u, MergeElement))
    ensures Learns(DoMergeElement(s, u), TrackThread(s, g, u, MergeElement), u, x, byRef, v, c)
  {
    assert s.ThreadWF(s.threads[v]);
  }

  lemma OwnLearns(s: State, g: Trace, u: nat, a: ThreadStep, x: nat, byRef: bool, v: nat, c: nat)
    requires Sized(s, g) && u < |s.threads| && ThreadPossible(s, u, a) && OfAcquire(a)
    requires v < |s.threads| && Learns(s, g, u, x, byRef, v, c)
    requires Sized(ApplyThread(s, u, a), TrackThread(s, g, u, a))
    ensures Learns(ApplyThread(s, u, a), TrackThread(s, g, u, a), u, x, byRef, v, c)
  {
    match a
    case CheckNode(i) => CheckLearns(s, g, u, i, x, byRef, v, c);
    case BeginMerge =>
      assert s.ThreadWF(s.threads[v]);
    case MergeElement => MergeLearns(s, g, u, x, byRef, v, c);
  }

  /** Another step, or one that helps on behalf of u. */
  lemma OtherLearns(s: State, g: Trace, s': State, g': Trace, u: nat, x: nat, byRef: bool, v: nat, c: nat)
    requires Sized(s, g) && Sized(s', g') && SameWorld(s, s') && u < |s.threads| && v < |s.threads|
    requires s'.threads[u] == s.threads[u] && g'.ths[u] == g.ths[u] && Learns(s, g, u, x, byRef, v, c)
    requires Open(s.threads[u]) && byRef ==> x < |g'.locs| && c <= g'.locs[x][v]
    ensures Learns(s', g', u, x, byRef, v, c)
  {
  }

  // ---- the same over runs ----

  ghost predicate KnowsAt(traces: seq<Trace>, k: nat, u: nat, v: nat, c: nat)
    requires k < |traces|
  {
    u < |traces[k].ths| && v < |traces[k].ths[u].hb| && c <= KnownAt(traces[k], u, v)
  }

  lemma {:induction false} KnowsLater(
      states: seq<State>, traces: seq<Trace>, steps: seq<Step>, j: nat, k: nat, u: nat, v: nat, c: nat)
    requires IsTraced(states, traces, steps) && j <= k < |traces| && KnowsAt(traces, j, u, v, c)
    ensures KnowsAt(traces, k, u, v, c)
    decreases k
  {
    if j < k {
      KnowsLater(states, traces, steps, j, k - 1, u, v, c);
      assert TracedAt(states, traces, steps, k - 1);
      KnownGrows(states[k - 1], traces[k - 1], steps[k - 1], u, v);
    }
  }

  ghost predicate LocAt(traces: seq<Trace>, k: nat, x: nat, v: nat, c: nat)
    requires k < |traces|
  {
    x < |traces[k].locs| && v < |traces[k].locs[x]| && c <= traces[k].locs[x][v]
  }

  lemma LocNext(states: seq<State>, traces: seq<Trace>, steps: seq<Step>, k: nat, x: nat, v: nat, c: nat)
    requires IsTraced(states, traces, steps) && k + 1 < |traces| && LocAt(traces, k, x, v, c)
    requires v < |states[0].threads| && !Overwrites(steps, k, x, states[0].threads[v].node)
    ensures LocAt(traces, k + 1, x, v, c)
  {
    assert TracedAt(states, traces, steps, k);
    RunWorld(states, steps, k);
    LocKeeps(states[k], traces[k], steps[k], x, v);
  }

  lemma {:induction false} LocLater(
      states: seq<State>, traces: seq<Trace>, steps: seq<Step>, p: nat, k: nat, x: nat, v: nat, c: nat)
    requires IsTraced(states, traces, steps) && p <= k < |traces| && LocAt(traces, p, x, v, c)
    requires v < |states[0].threads|
    requires forall q: nat | p <= q < k :: !Overwrites(steps, q, x, states[0].threads[v].node)
    ensures LocAt(traces, k, x, v, c)
    decreases k
  {
    if p < k {
      LocLater(states, traces, steps, p, k - 1, x, v, c);
      LocNext(states, traces, steps, k - 1, x, v, c);
    }
  }

  lemma PublishedAt(states: seq<State>, traces: seq<Trace>, steps: seq<Step>, p: nat, t: nat, x: nat, v: nat, c: nat)
    requires IsTraced(states, traces, steps) && p + 1 < |traces| && v < |states[0].threads|
    requires Publishes(steps, p, t, x, states[0].threads[v].node) && KnowsAt(traces, p, t, v, c)
    ensures LocAt(traces, p + 1, x, v, c)
  {
    assert TracedAt(states, traces, steps, p);
    RunTame(states, traces, steps, p);
    RunWorld(states, steps, p);
    PublishKnows(states[p], traces[p], t, steps[p].a, v);
  }

  /** An offered element holds what its publisher knew, until it may be overwritten. */
  lemma OfferHolds(states: seq<State>, traces: seq<Trace>, steps: seq<Step>,
                   t: nat, x: nat, m: nat, b: nat, stop: nat, k: nat, v: nat, c: nat)
    requires IsTraced(states, traces, steps) && m + 1 < |traces| && b <= k <= stop && k < |traces|
    requires v < |states[0].threads| && KnowsAt(traces, m + 1, t, v, c)
    requires Offered(steps, t, x, states[0].threads[v].node, m, b, stop)
    ensures LocAt(traces, k, x, v, c)
  {
    var i := states[0].threads[v].node;
    var p: nat :| m < p < b && OfferedAt(steps, t, x, i, p, stop);
    KnowsLater(states, traces, steps, m + 1, p, t, v, c);
    PublishedAt(states, traces, steps, p, t, x, v, c);
    LocLater(states, traces, steps, p + 1, k, x, v, c);
  }

  ghost predicate LearnsAt(states: seq<State>, traces: seq<Trace>, k: nat, u: nat, x: nat, byRef: bool, v: nat, c: nat)
    requires k < |states| && k < |traces|
  {
    && Sized(states[k], traces[k]) && u < |states[k].threads| && v < |states[k].threads|
    && Learns(states[k], traces[k], u, x, byRef, v, c)
  }

  /** A step during the acquire. */
  lemma LearnsNext(states: seq<State>, traces: seq<Trace>, steps: seq<Step>,
                   k: nat, u: nat, x: nat, byRef: bool, v: nat, c: nat)
    requires IsTraced(states, traces, steps) && k + 1 < |traces| && LearnsAt(states, traces, k, u, x, byRef, v, c)
    requires By(steps, k, u) ==> OfAcquire(steps[k].a)
    requires !By(steps, k, u) && byRef ==> LocAt(traces, k + 1, x, v, c)
    ensures LearnsAt(states, traces, k + 1, u, x, byRef, v, c)
  {
    assert PlainAt(states, steps, k) && TracedAt(states, traces, steps, k);
    RunTame(states, traces, steps, k);
    LearnsStep(states[k], traces[k], steps[k], u, x, byRef, v, c);
  }

  lemma LearnsStep(s: State, g: Trace, step: Step, u: nat, x: nat, byRef: bool, v: nat, c: nat)
    requires HbInv(s, g) && Possible(s, step) && u < |s.threads| && v < |s.threads| && Learns(s, g, u, x, byRef, v, c)
    requires step.ByThread? && step.t == u ==> OfAcquire(step.a)
    requires !(step.ByThread? && step.t == u) && byRef ==>
               x < |Track(s, g, step).locs| && v < |Track(s, g, step).locs[x]| && c <= Track(s, g, step).locs[x][v]
    ensures Sized(Apply(s, step), Track(s, g, step)) && SameWorld(s, Apply(s, step))
    ensures Learns(Apply(s, step), Track(s, g, step), u, x, byRef, v, c)
  {
    TrackLater(s, g, step);
    StepWorld(s, step);
    if step.ByThread? && step.t == u {
      OwnLearns(s, g, u, step.a, x, byRef, v, c);
    } else if step.ByConsumer? && step.b.Leave? && s.nodes[step.n].cons.HeldBy(u) {
      HelpLearns(s, g, step.n, u, x, byRef, v, c);
    } else {
      assert step.ByThread? ==> OwnOk(s, g, step.t);
      RecordChanges(s, g, step, u);
      OtherLearns(s, g, Apply(s, step), Track(s, g, step), u, x, byRef, v, c);
    }
  }

  lemma HelpLearns(s: State, g: Trace, n: nat, u: nat, x: nat, byRef: bool, v: nat, c: nat)
    requires Sized(s, g) && n < |s.nodes| && ConsumerPossible(s, n, Leave) && s.nodes[n].cons.HeldBy(u)
    requires u < |s.threads| && v < |s.threads| && Learns(s, g, u, x, byRef, v, c)
    requires Sized(DoLeave(s, n), Track(s, g, ByConsumer(n, Leave))) && SameWorld(s, DoLeave(s, n))
    ensures Learns(DoLeave(s, n), Track(s, g, ByConsumer(n, Leave)), u, x, byRef, v, c)
  {
    var i := s.nodes[n].cons.ring;
    CheckLearns(s, g, u, i, x, byRef, v, c);
    OtherLearns(WithThread(s, u, NodeDone(s, u, i)), WithHistory(g, u, Waits(s, g, u, i)),
                DoLeave(s, n), Track(s, g, ByConsumer(n, Leave)), u, x, byRef, v, c);
  }

  // ---- an acquire over a run ----

  lemma {:induction false} LearnsLater(states: seq<State>, traces: seq<Trace>, steps: seq<Step>,
                                       m: nat, k: nat, h: Handover, v: nat, c: nat, q: nat)
    requires IsTraced(states, traces, steps) && k < |traces| && HandsOverBy(steps, |states[0].nodes|, m, k, h)
    requires v < |states[0].threads| && KnowsAt(traces, m + 1, h.t, v, c) && h.b < q <= h.e + 1
    ensures LearnsAt(states, traces, q, h.u, h.x, h.byRef, v, c)
    decreases q
  {
    OfferFor(states, steps, m, k, h, v);
    if q == h.b + 1 {
      OfferHolds(states, traces, steps, h.t, h.x, m, h.b, h.Stop(), h.b, v, c);
      AcquireBegins(states, traces, steps, h, v, c);
    } else {
      LearnsLater(states, traces, steps, m, k, h, v, c, q - 1);
      if h.byRef && q <= h.e {
        OfferHolds(states, traces, steps, h.t, h.x, m, h.b, h.Stop(), q, v, c);
      }
      LearnsNext(states, traces, steps, q - 1, h.u, h.x, h.byRef, v, c);
    }
  }

  lemma OfferFor(states: seq<State>, steps: seq<Step>, m: nat, k: nat, h: Handover, v: nat)
    requires IsPlainRun(states, steps) && HandsOverBy(steps, |states[0].nodes|, m, k, h) && v < |states[0].threads|
    ensures Offered(steps, h.t, h.x, states[0].threads[v].node, m, h.b, h.Stop())
  {
    assert FreshThread(states[0], v);
  }

  lemma AcquireBegins(states: seq<State>, traces: seq<Trace>, steps: seq<Step>, h: Handover, v: nat, c: nat)
    requires IsTraced(states, traces, steps) && h.b + 1 < |traces|
    requires h.b < |steps| && steps[h.b] == ByThread(h.u, BeginAcquire(h.x, h.byRef))
    requires LocAt(traces, h.b, h.x, v, c) && v < |states[0].threads|
    ensures LearnsAt(states, traces, h.b + 1, h.u, h.x, h.byRef, v, c)
  {
    assert PlainAt(states, steps, h.b) && TracedAt(states, traces, steps, h.b);
    RunWorld(states, steps, h.b);
    ThreadTrackSized(states[h.b], traces[h.b], h.u, steps[h.b].a);
    BeginLearns(states[h.b], traces[h.b], h.u, h.x, h.byRef, v, c);
  }

  /** An open acquire stays open until a step of its own thread. */
  lemma {:induction false} StaysOpen(states: seq<State>, steps: seq<Step>, j: nat, k: nat, u: nat)
    requires IsPlainRun(states, steps) && j <= k < |states| && u < |states[j].threads| && Open(states[j].threads[u])
    requires forall q: nat | j <= q < k :: !By(steps, q, u)
    ensures u < |states[k].threads| && Open(states[k].threads[u])
    decreases k
  {
    if j < k {
      StaysOpen(states, steps, j, k - 1, u);
      assert PlainAt(states, steps, k - 1) && !By(steps, k - 1, u);
      StepStaysOpen(states[k - 1], steps[k - 1], u);
    }
  }

  lemma StepStaysOpen(s: State, step: Step, u: nat)
    requires s.WF() && Possible(s, step) && u < |s.threads| && Open(s.threads[u])
    requires !(step.ByThread? && step.t == u)
    ensures u < |Apply(s, step).threads| && Open(Apply(s, step).threads[u])
  {
    match step
    case ByCache(n, c) => CacheStepFrame(s, n, c);
    case ByThread(t, a) => ThreadStepFrame(s, t, a);
    case ByConsumer(n, b) => ConsumerStepFrame(s, n, b);
  }

  lemma ClosedAt(states: seq<State>, steps: seq<Step>, m: nat, k: nat, h: Handover)
    requires IsPlainRun(states, steps) && HandsOverBy(steps, |states[0].nodes|, m, k, h)
    ensures h.u < |states[h.e + 1].threads| && !Open(states[h.e + 1].threads[h.u])
  {
    RunWorld(states, steps, h.e + 1);
    RunWorld(states, steps, k);
    assert PlainAt(states, steps, k);
    if Open(states[h.e + 1].threads[h.u]) {
      StaysOpen(states, steps, h.e + 1, k, h.u);
    }
  }

  /** What thread h.t knows of v after step m, thread h.u knows at step k. */
  lemma HandoverKnows(states: seq<State>, traces: seq<Trace>, steps: seq<Step>,
                      m: nat, k: nat, h: Handover, v: nat, c: nat)
    requires IsTraced(states, traces, steps) && k < |traces| && HandsOverBy(steps, |states[0].nodes|, m, k, h)
    requires v < |states[0].threads| && KnowsAt(traces, m + 1, h.t, v, c)
    ensures KnowsAt(traces, k, h.u, v, c)
  {
    LearnsLater(states, traces, steps, m, k, h, v, c, h.e + 1);
    ClosedAt(states, steps, m, k, h);
    RunTame(states, traces, steps, h.e + 1);
    HbIsKnown(states[h.e + 1], traces[h.e + 1], h.u, v);
    KnowsLater(states, traces, steps, h.e + 1, k, h.u, v, c);
  }

  lemma HbIsKnown(s: State, g: Trace, u: nat, v: nat)
    requires HbInv(s, g) && u < |s.threads| && v < |s.threads|
    ensures g.ths[u].hb[v] <= KnownAt(g, u, v)
  {
    assert ThreadCarries(s, g, u, v) && OwnOk(s, g, v);
  }

  lemma DirectlyKnows(states: seq<State>, traces: seq<Trace>, steps: seq<Step>, m: nat, k: nat, v: nat, c: nat)
    requires IsTraced(states, traces, steps) && k < |traces| && Directly(steps, |states[0].nodes|, m, k)
    requires v < |states[0].threads| && m < k < |steps| && steps[m].ByThread? && steps[k].ByThread?
    requires KnowsAt(traces, m + 1, steps[m].t, v, c)
    ensures KnowsAt(traces, k, steps[k].t, v, c)
  {
    if SameThread(steps, m, k) {
      KnowsLater(states, traces, steps, m + 1, k, steps[m].t, v, c);
    } else {
      var h: Handover :| HandsOverBy(steps, |states[0].nodes|, m, k, h);
      HandoverKnows(states, traces, steps, m, k, h, v, c);
    }
  }

  lemma DirectlyIs(steps: seq<Step>, n: nat, m: nat, k: nat)
    requires Directly(steps, n, m, k)
    ensures m < k < |steps| && steps[m].ByThread? && steps[k].ByThread?
  {
    if !SameThread(steps, m, k) {
      var h: Handover :| HandsOverBy(steps, n, m, k, h);
    }
  }

  lemma {:induction false} BeforeIs(steps: seq<Step>, n: nat, j: nat, k: nat)
    requires Before(steps, n, j, k)
    ensures j < k < |steps| && steps[j].ByThread? && steps[k].ByThread?
    decreases k
  {
    if Directly(steps, n, j, k) {
      DirectlyIs(steps, n, j, k);
    } else {
      var m: nat :| j < m < k && Before(steps, n, j, m) && Directly(steps, n, m, k);
      BeforeIs(steps, n, j, m);
      DirectlyIs(steps, n, m, k);
    }
  }

  /** Knowledge follows the order. */
  lemma {:induction false} BeforeKnows(
      states: seq<State>, traces: seq<Trace>, steps: seq<Step>, j: nat, k: nat, v: nat, c: nat)
    requires IsTraced(states, traces, steps) && k < |traces| && Before(steps, |states[0].nodes|, j, k)
    requires v < |states[0].threads| && j < k < |steps| && steps[j].ByThread? && steps[k].ByThread?
    requires KnowsAt(traces, j + 1, steps[j].t, v, c)
    ensures KnowsAt(traces, k, steps[k].t, v, c)
    decreases k
  {
    var n := |states[0].nodes|;
    if Directly(steps, n, j, k) {
      DirectlyKnows(states, traces, steps, j, k, v, c);
    } else {
      var m: nat :| j < m < k && Before(steps, n, j, m) && Directly(steps, n, m, k);
      BeforeIs(steps, n, j, m);
      BeforeKnows(states, traces, steps, j, m, v, c);
      KnowsLater(states, traces, steps, m, m + 1, steps[m].t, v, c);
      DirectlyKnows(states, traces, steps, m, k, v, c);
    }
  }

  // ---- programs whose conflicting accesses are ordered ----

  ghost predicate StoresTo(steps: seq<Step>, j: nat, t: nat, l: Line) {
    By(steps, j, t) && steps[j].a.Store? && steps[j].a.l == l
  }

  ghost predicate Accesses(steps: seq<Step>, k: nat, l: Line) {
    k < |steps| && steps[k].ByThread? && (steps[k].a.Load? || steps[k].a.Store?) && steps[k].a.l == l
  }

  ghost predicate OnOtherNodes(s: State, t: nat, u: nat) {
    t < |s.threads| && u < |s.threads| && s.threads[t].node != s.threads[u].node
  }

  /** Every store to the line of access k by a thread of another node happens before the access. */
  ghost predicate OrderedAt(s0: State, steps: seq<Step>, k: nat) {
    forall j: nat, t: nat, l: Line | j < k && Accesses(steps, k, l) && StoresTo(steps, j, t, l) ::
      OnOtherNodes(s0, t, steps[k].t) ==> Before(steps, |s0.nodes|, j, k)
  }

  ghost predicate IsOrdered(s0: State, steps: seq<Step>) {
    forall k: nat | k < |steps| :: OrderedAt(s0, steps, k)
  }

  /** Store number c of thread t, of the first k steps, is step j. */
  ghost predicate StoreIs(traces: seq<Trace>, steps: seq<Step>, k: nat, t: nat, c: nat, j: nat)
    requires k < |traces| && t < |traces[k].ths| && c < |traces[k].ths[t].stores|
  {
    StoresTo(steps, j, t, traces[k].ths[t].stores[c]) && j < k && KnowsAt(traces, j + 1, t, t, c + 1)
  }

  lemma {:induction false} StoreStep(
      states: seq<State>, traces: seq<Trace>, steps: seq<Step>, k: nat, t: nat, c: nat) returns (j: nat)
    requires IsTraced(states, traces, steps) && k < |traces| && t < |traces[k].ths| && c < |traces[k].ths[t].stores|
    ensures StoreIs(traces, steps, k, t, c, j)
  {
    assert k > 0;
    assert TracedAt(states, traces, steps, k - 1);
    StoresGrow(states[k - 1], traces[k - 1], steps[k - 1], t);
    if c < |traces[k - 1].ths[t].stores| {
      j := StoreStep(states, traces, steps, k - 1, t, c);
    } else {
      j := k - 1;
    }
  }

  lemma StoresGrow(s: State, g: Trace, step: Step, t: nat)
    requires Sized(s, g) && Possible(s, step) && |Track(s, g, step).ths| == |g.ths| && t < |g.ths|
    ensures Track(s, g, step).ths[t].stores ==
            g.ths[t].stores + if step.ByThread? && step.t == t && step.a.Store? then [step.a.l] else []
  {
    match step
    case ByCache(n, c) =>
    case ByThread(u, a) =>
      if u != t {
        OthersKnown(s, g, u, a, t);
      }
    case ByConsumer(n, b) =>
  }

  lemma OrderedIsRaceFree(states: seq<State>, traces: seq<Trace>, steps: seq<Step>, k: nat, l: Line)
    requires IsTraced(states, traces, steps) && k < |traces| && k < |steps| && OrderedAt(states[0], steps, k)
    requires Accesses(steps, k, l) && Sized(states[k], traces[k]) && steps[k].t < |states[k].threads|
    ensures HbRaceFree(states[k], traces[k], steps[k].t, l)
  {
    var s, g, u := states[k], traces[k], steps[k].t;
    RunWorld(states, steps, k);
    forall t: nat, c: nat | t < |s.threads| && s.threads[t].node != s.threads[u].node && c < |g.ths[t].stores|
      ensures g.ths[t].stores[c] == l ==> c < g.ths[u].hb[t]
    {
      if g.ths[t].stores[c] == l {
        var j := StoreStep(states, traces, steps, k, t, c);
        assert OnOtherNodes(states[0], t, u);
        BeforeKnows(states, traces, steps, j, k, t, c + 1);
      }
    }
  }

  /** The histories of a run exist, and if the run is ordered, its accesses are race free. */
  lemma {:induction false} WithTraces(states: seq<State>, steps: seq<Step>, k: nat) returns (traces: seq<Trace>)
    requires IsPlainRun(states, steps) && k < |states|
    ensures IsTraced(states, traces, steps) && |traces| == k + 1
  {
    if k == 0 {
      var s := states[0];
      InitInv(s);
      var g := Trace.Trace(
        seq(|s.threads|, _ => History([], 0, Zero(|s.threads|), Zero(|s.threads|), Zero(|s.threads|))),
        seq(|s.rings|, _ => []), seq(|s.locs|, _ => Zero(|s.threads|)));
      traces := [g];
    } else {
      var before := WithTraces(states, steps, k - 1);
      RunTame(states, before, steps, k - 1);
      assert PlainAt(states, steps, k - 1);
      traces := before + [Track(states[k - 1], before[k - 1], steps[k - 1])];
      forall q: nat | q + 1 < |traces| ensures TracedAt(states, traces, steps, q) {
        assert q + 1 < |before| ==> TracedAt(states, before, steps, q);
      }
    }
  }

  lemma OrderedIsHbRun(states: seq<State>, traces: seq<Trace>, steps: seq<Step>)
    requires IsTraced(states, traces, steps) && |traces| == |states| && IsOrdered(states[0], steps)
    ensures IsHbRun(states, traces, steps)
  {
    forall k: nat | k < |steps| ensures HbMovesAt(states, traces, steps, k) {
      assert PlainAt(states, steps, k) && TracedAt(states, traces, steps, k) && OrderedAt(states[0], steps, k);
      if steps[k].ByThread? && (steps[k].a.Load? || steps[k].a.Store?) {
        OrderedIsRaceFree(states, traces, steps, k, steps[k].a.l);
      }
    }
  }

  /**
   Synchronisation suffices.  When every access happens after all stores to its line from other nodes, in the
   order read off the steps, each load of the run returns what one coherent memory would return, and each store
   works on its content.
   */
  lemma OrderedRunsAreCoherent(states: seq<State>, steps: seq<Step>, k: nat)
    requires IsPlainRun(states, steps) && IsOrdered(states[0], steps) && k < |steps| && steps[k].ByThread?
    ensures steps[k].a.Load? ==>
              steps[k].a.v == Word(At(Reference(states[0].mem, steps[..k]), steps[k].a.l), steps[k].a.w)
    ensures steps[k].a.Store? ==>
              var s, t := states[k], steps[k].t;
              && s.WF() && t < |s.threads|
              && Visible(s, s.threads[t].node, steps[k].a.l) == At(Reference(states[0].mem, steps[..k]), steps[k].a.l)
  {
    var traces := WithTraces(states, steps, |steps|);
    OrderedIsHbRun(states, traces, steps);
    RaceFreeRunsAreCoherent(states, traces, steps, k);
  }
}
