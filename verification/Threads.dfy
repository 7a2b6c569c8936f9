/**
 What holds of each thread in every reachable state: its dirty table and recent_cl agree with where it
 is in its code, and every clock component it holds is the index of a committed release log that its
 node has already consumed.
 */
module Threads {
  import opened Clocks
  import opened Broadcast
  import opened Protocol
  import opened Progress

  // ---- table, recent_cl and program counter ----

  ghost predicate FlushOk(th: Thread, rel: bool, next: Line) {
    if rel then th.recent == 0 && next == 0 else next != 0 && th.recent == next
  }

  ghost predicate PcOk(th: Thread, r: seq<Slot<set<Line>>>) {
    match th.pc
    case Flushing(rel, wrote, next) => wrote <= th.dirty && FlushOk(th, rel, next)
    case Reserving(rel, idx, next) => idx < |r| && r[idx].Reserved? && FlushOk(th, rel, next)
    case Publishing(rel, idx, next) => idx < |r| && r[idx] == Committed(Log(th.dirty, rel)) && FlushOk(th, rel, next)
    case Assigning(idx) => idx < |r| && r[idx].Committed? && r[idx].log.rel && th.dirty == {} && th.recent == 0
    case Inserting(next) => th.dirty == {} && next != 0 && th.recent == next
    case _ => if th.recent == 0 then th.dirty == {} else th.recent in th.dirty
  }

  ghost predicate PcsOk(s: State) {
    && s.WF()
    && (forall t: nat | t < |s.threads| :: PcOk(s.threads[t], s.rings[s.threads[t].node]))
    && (forall t: nat, u: nat | t < u < |s.threads| :: !SameSlot(s.threads[t], s.threads[u]))
  }

  ghost predicate SameSlot(a: Thread, b: Thread) {
    a.pc.Reserving? && b.pc.Reserving? && a.node == b.node && a.pc.idx == b.pc.idx
  }

  lemma ThreadStepPc(s: State, t: nat, a: ThreadStep)
    requires PcsOk(s) && t < |s.threads| && ThreadPossible(s, t, a)
    ensures Reservation(s, t) <==> s.threads[t].pc.Reserving?
    ensures var s' := ApplyThread(s, t, a); PcOk(s'.threads[t], s'.rings[s'.threads[t].node])
  {
    assert PcOk(s.threads[t], s.rings[s.threads[t].node]);
  }

  lemma OtherPc(s: State, t: nat, a: ThreadStep, u: nat)
    requires PcsOk(s) && t < |s.threads| && ThreadPossible(s, t, a) && u < |s.threads| && u != t
    ensures var s' := ApplyThread(s, t, a);
            && PcOk(s'.threads[u], s'.rings[s'.threads[u].node])
            && !SameSlot(s'.threads[t], s'.threads[u])
  {
    assert PcOk(s.threads[u], s.rings[s.threads[u].node]);
    assert !SameSlot(s.threads[t], s.threads[u]) by {
      if u < t {
        assert !SameSlot(s.threads[u], s.threads[t]);
      }
    }
  }

  lemma StepPcs(s: State, step: Step)
    requires PcsOk(s) && Possible(s, step)
    ensures PcsOk(Apply(s, step))
    ensures step.ByThread? && step.a.Commit? ==> Reservation(s, step.t)
  {
    var s' := Apply(s, step);
    match step {
      case ByCache(n, c) => CacheStepFrame(s, n, c);
      case ByThread(t, a) =>
        ThreadStepFrame(s, t, a);
        ThreadStepPc(s, t, a);
        forall u: nat | u < |s.threads| && u != t
          ensures PcOk(s'.threads[u], s'.rings[s'.threads[u].node]) && !SameSlot(s'.threads[t], s'.threads[u])
        {
          OtherPc(s, t, a, u);
        }
      case ByConsumer(n, b) => ConsumerPcs(s, n, b);
    }
  }

  lemma ConsumerPcs(s: State, n: nat, b: ConsumerStep)
    requires PcsOk(s) && n < |s.nodes| && ConsumerPossible(s, n, b)
    ensures PcsOk(ApplyConsumer(s, n, b))
  {
    var s' := ApplyConsumer(s, n, b);
    ConsumerStepFrame(s, n, b);
    forall u: nat | u < |s.threads| ensures PcOk(s'.threads[u], s'.rings[s'.threads[u].node]) {
      assert PcOk(s.threads[u], s.rings[s.threads[u].node]);
    }
    forall t: nat, u: nat | t < u < |s.threads| ensures !SameSlot(s'.threads[t], s'.threads[u]) {
      assert !SameSlot(s.threads[t], s.threads[u]);
    }
  }

  // ---- where clock components come from ----

  /** Every component of c is 0 or the index of a committed release log of that node. */
  ghost predicate Genuine(rings: seq<seq<Slot<set<Line>>>>, c: Clock) {
    |c| == |rings| && forall i: nat | i < |c| :: IsReleaseIndex(rings[i], c[i])
  }

  ghost predicate ThreadGenuine(rings: seq<seq<Slot<set<Line>>>>, th: Thread) {
    && Genuine(rings, th.clock) && Genuine(rings, th.seen)
    && (th.pc.Acquiring? || th.pc.Merging? ==> Genuine(rings, th.pc.target) && Genuine(rings, th.pc.waited))
  }

  ghost predicate AllGenuine(s: State) {
    && s.WF()
    && (forall t: nat | t < |s.threads| :: ThreadGenuine(s.rings, s.threads[t]))
    && (forall x: nat | x < |s.locs| :: Genuine(s.rings, s.locs[x]))
  }

  lemma GenuineFrame(s: State, s': State, c: Clock)
    requires RingsGrow(s, s') && Genuine(s.rings, c)
    ensures Genuine(s'.rings, c)
  {
    forall i: nat | i < |c| ensures IsReleaseIndex(s'.rings[i], c[i]) {
      assert Grows(s.rings[i], s'.rings[i]);
      assert IsReleaseIndex(s.rings[i], c[i]);
    }
  }

  lemma GenuineUpdate(rings: seq<seq<Slot<set<Line>>>>, c: Clock, i: nat, v: nat)
    requires Genuine(rings, c) && i < |c| && IsReleaseIndex(rings[i], v)
    ensures Genuine(rings, c[i := v])
  {
  }

  lemma WantedGenuine(s: State, t: nat, i: nat)
    requires AllGenuine(s) && t < |s.threads| && i < |s.nodes|
    requires s.threads[t].pc.Acquiring? || s.threads[t].pc.Merging?
    ensures IsReleaseIndex(s.rings[i], Wanted(s, t, i))
  {
    var pc := s.threads[t].pc;
    assert ThreadGenuine(s.rings, s.threads[t]);
    assert Genuine(s.rings, s.locs[pc.loc]);
    assert Genuine(s.rings, pc.target);
  }

  /** On the old rings, the new clocks of the stepping thread are genuine, except after an assign. */
  lemma ThreadStepGenuine(s: State, t: nat, a: ThreadStep)
    requires AllGenuine(s) && PcsOk(s) && t < |s.threads| && ThreadPossible(s, t, a)
    ensures ThreadGenuine(s.rings, ApplyThread(s, t, a).threads[t])
  {
    var th := s.threads[t];
    assert ThreadGenuine(s.rings, th);
    match a {
      case AssignClock =>
        assert PcOk(th, s.rings[th.node]);
        GenuineUpdate(s.rings, th.clock, th.node, th.pc.idx + 1);
      case CheckNode(i) =>
        WantedGenuine(s, t, i);
        GenuineUpdate(s.rings, th.pc.waited, i, Wanted(s, t, i));
      case BeginAcquire(x, byRef) =>
        assert Genuine(s.rings, s.locs[x]);
      case MergeElement =>
        var j := th.pc.j;
        if j < |s.nodes| {
          WantedGenuine(s, t, j);
          GenuineUpdate(s.rings, th.clock, j, Max(th.clock[j], Wanted(s, t, j)));
          GenuineUpdate(s.rings, th.seen, j, Max(th.seen[j], th.pc.waited[j]));
        }
      case _ =>
    }
  }

  lemma LocsGenuine(s: State, t: nat, a: ThreadStep, x: nat)
    requires AllGenuine(s) && t < |s.threads| && ThreadPossible(s, t, a) && x < |s.locs|
    ensures Genuine(s.rings, ApplyThread(s, t, a).locs[x])
  {
    assert Genuine(s.rings, s.locs[x]);
    assert ThreadGenuine(s.rings, s.threads[t]);
  }

  lemma LeaveGenuine(s: State, t: nat, i: nat)
    requires AllGenuine(s) && t < |s.threads| && s.threads[t].pc.Acquiring? && i < |s.nodes|
    ensures ThreadGenuine(s.rings, NodeDone(s, t, i))
  {
    assert ThreadGenuine(s.rings, s.threads[t]);
    WantedGenuine(s, t, i);
    GenuineUpdate(s.rings, s.threads[t].pc.waited, i, Wanted(s, t, i));
  }

  lemma StepGenuine(s: State, step: Step)
    requires AllGenuine(s) && PcsOk(s) && Possible(s, step)
    requires RingsGrow(s, Apply(s, step))
    ensures AllGenuine(Apply(s, step))
  {
    var s' := Apply(s, step);
    forall t: nat | t < |s.threads| ensures ThreadGenuine(s'.rings, s'.threads[t]) {
      ThreadStillGenuine(s, step, t);
    }
    forall x: nat | x < |s.locs| ensures Genuine(s'.rings, s'.locs[x]) {
      match step {
        case ByCache(n, c) => CacheStepFrame(s, n, c);
        case ByThread(t, a) => LocsGenuine(s, t, a, x);
        case ByConsumer(n, b) => ConsumerStepFrame(s, n, b);
      }
      GenuineFrame(s, s', s'.locs[x]);
    }
  }

  lemma ThreadStillGenuine(s: State, step: Step, t: nat)
    requires AllGenuine(s) && PcsOk(s) && Possible(s, step)
    requires RingsGrow(s, Apply(s, step)) && t < |s.threads|
    ensures ThreadGenuine(Apply(s, step).rings, Apply(s, step).threads[t])
  {
    var s' := Apply(s, step);
    assert ThreadGenuine(s.rings, s.threads[t]);
    match step {
      case ByCache(n, c) => CacheStepFrame(s, n, c);
      case ByThread(u, a) =>
        ThreadStepFrame(s, u, a);
        ThreadStepGenuine(s, u, a);
      case ByConsumer(n, b) =>
        ConsumerStepFrame(s, n, b);
        if s'.threads[t] != s.threads[t] {
          LeaveGenuine(s, t, s.nodes[n].cons.ring);
        }
    }
    var th := s'.threads[t];
    GenuineFrame(s, s', th.clock);
    GenuineFrame(s, s', th.seen);
    if th.pc.Acquiring? || th.pc.Merging? {
      GenuineFrame(s, s', th.pc.target);
      GenuineFrame(s, s', th.pc.waited);
    }
  }

  // ---- thread clocks never go back ----

  /** While a log is on its way, the own clock component is still below its index. */
  ghost predicate OwnBelow(th: Thread)
    requires th.node < |th.clock|
  {
    th.pc.Reserving? || th.pc.Publishing? || th.pc.Assigning? ==> th.clock[th.node] <= th.pc.idx
  }

  ghost predicate AllBelow(s: State) {
    s.WF() && forall t: nat | t < |s.threads| :: OwnBelow(s.threads[t])
  }

  lemma StepBelow(s: State, step: Step)
    requires AllBelow(s) && AllGenuine(s) && Possible(s, step)
    ensures AllBelow(Apply(s, step))
  {
    var s' := Apply(s, step);
    forall t: nat | t < |s.threads| ensures OwnBelow(s'.threads[t]) {
      assert OwnBelow(s.threads[t]);
      match step {
        case ByCache(n, c) => CacheStepFrame(s, n, c);
        case ByThread(u, a) =>
          ThreadStepFrame(s, u, a);
          if u == t {
            OwnStepBelow(s, t, a);
          }
        case ByConsumer(n, b) => ConsumerStepFrame(s, n, b);
      }
    }
  }

  lemma OwnStepBelow(s: State, t: nat, a: ThreadStep)
    requires AllBelow(s) && AllGenuine(s) && t < |s.threads| && ThreadPossible(s, t, a)
    ensures OwnBelow(ApplyThread(s, t, a).threads[t])
  {
    assert OwnBelow(s.threads[t]);
    assert ThreadGenuine(s.rings, s.threads[t]);
    assert IsReleaseIndex(s.rings[s.threads[t].node], s.threads[t].clock[s.threads[t].node]);
  }

  /** thread_clock is monotone: assign and merge only raise it. */
  lemma ThreadClockAdvances(s: State, step: Step, t: nat)
    requires AllBelow(s) && Possible(s, step) && t < |s.threads|
    ensures Leq(s.threads[t].clock, Apply(s, step).threads[t].clock)
  {
    match step {
      case ByCache(n, c) => CacheStepFrame(s, n, c);
      case ByThread(u, a) =>
        ThreadStepFrame(s, u, a);
        assert OwnBelow(s.threads[t]);
      case ByConsumer(n, b) => ConsumerStepFrame(s, n, b);
    }
  }
}
