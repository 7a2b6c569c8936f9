/**
 What a node knows about the rings it consumes: heads only pass committed slots, and the cache clock of
 a ring is exactly the last release log that was consumed from it whenever nobody holds the head mutex.
 */
module Progress {
  import opened Broadcast
  import opened Protocol

  /** Slots are appended, and a committed slot never changes. */
  ghost predicate Grows<T>(r: seq<Slot<T>>, r': seq<Slot<T>>) {
    |r| <= |r'| && forall k | 0 <= k < |r| && r[k].Committed? :: r'[k] == r[k]
  }

  ghost predicate RingsGrow(s: State, s': State) {
    |s.rings| == |s'.rings| && forall i | 0 <= i < |s.rings| :: Grows(s.rings[i], s'.rings[i])
  }

  ghost predicate Working(cons: Consumer, i: nat) {
    cons.Busy? && cons.ring == i && !cons.phase.Stored?
  }

  /** The clock that the consumer will leave behind: the agent's local 0 means "nothing new". */
  ghost function Reached(cons: Consumer, i: nat, clock: nat): nat {
    if Working(cons, i) && !(cons.who.Agent? && cons.clk == 0) then cons.clk else clock
  }

  /** The slots consumed so far, counting the one being processed. */
  ghost function Taken(cons: Consumer, i: nat, head: nat): nat {
    if Working(cons, i) && cons.phase.Processing? then head + 1 else head
  }

  /** Progress of one node on ring r, which is number i. */
  ghost predicate Tracks(r: seq<Slot<set<Line>>>, i: nat, head: nat, clock: nat, cons: Consumer) {
    && Taken(cons, i, head) <= |r|
    && (forall k | 0 <= k < Taken(cons, i, head) :: r[k].Committed?)
    && Reached(cons, i, clock) == LastRelease(r, Taken(cons, i, head))
    && IsReleaseIndex(r, clock)
    && clock <= head
  }

  ghost predicate NodeTracks(s: State, n: nat)
    requires s.WF() && n < |s.nodes|
  {
    && (s.nodes[n].cons.Busy? ==> s.nodes[n].cons.ring < |s.nodes| && s.nodes[n].cons.ring != n)
    && forall i: nat | i < |s.nodes| && i != n ::
         Tracks(s.rings[i], i, s.nodes[n].heads[i], s.nodes[n].clock[i], s.nodes[n].cons)
  }

  ghost predicate AllTrack(s: State) {
    s.WF() && forall n: nat | n < |s.nodes| :: NodeTracks(s, n)
  }

  lemma TracksFrame(r: seq<Slot<set<Line>>>, r': seq<Slot<set<Line>>>, i: nat, head: nat, clock: nat, cons: Consumer)
    requires Tracks(r, i, head, clock, cons) && Grows(r, r')
    ensures Tracks(r', i, head, clock, cons)
  {
    LastReleaseStable(r, r', Taken(cons, i, head));
  }

  lemma LockTracks(r: seq<Slot<set<Line>>>, i: nat, head: nat, clock: nat, who: Who, j: nat)
    requires Tracks(r, i, head, clock, Free)
    ensures Tracks(r, i, head, clock, Busy(who, j, if who.Agent? then 0 else clock, Looking)) || i != j
    ensures i != j ==> forall clk :: Tracks(r, i, head, clock, Busy(who, j, clk, Looking))
  {
  }

  lemma TakeTracks(r: seq<Slot<set<Line>>>, i: nat, head: nat, clock: nat, cons: Consumer)
    requires Tracks(r, i, head, clock, cons) && cons.Busy? && cons.ring == i && cons.phase.Looking?
    requires head < |r| && r[head].Committed?
    ensures Tracks(r, i, head, clock,
                   cons.(clk := if r[head].log.rel then head + 1 else cons.clk, phase := Processing({})))
  {
  }

  lemma StoreTracks(r: seq<Slot<set<Line>>>, i: nat, head: nat, clock: nat, cons: Consumer)
    requires Tracks(r, i, head, clock, cons) && cons.Busy? && cons.ring == i && cons.phase.Leaving?
    ensures Tracks(r, i, head, if cons.who.Agent? && cons.clk == 0 then clock else cons.clk, cons.(phase := Stored))
    ensures clock <= Reached(cons, i, clock)
  {
    LastReleaseIsLargest(r, head);
  }

  /** The slot a thread has reserved and not yet committed. */
  ghost predicate Reservation(s: State, t: nat)
    requires s.WF()
  {
    t < |s.threads| && s.threads[t].pc.Reserving?
    && s.threads[t].pc.idx < |s.rings[s.threads[t].node]| && s.rings[s.threads[t].node][s.threads[t].pc.idx].Reserved?
  }

  lemma ApplyGrows(s: State, t: nat, a: ThreadStep)
    requires s.WF() && t < |s.threads| && ThreadPossible(s, t, a)
    requires a.Commit? ==> Reservation(s, t)
    ensures RingsGrow(s, ApplyThread(s, t, a))
  {
  }

  ghost predicate SameProgress(nd: Node, nd': Node) {
    nd.heads == nd'.heads && nd.clock == nd'.clock && nd.cons == nd'.cons
  }

  lemma NodeTracksFrame(s: State, s': State, n: nat)
    requires s.WF() && s'.WF() && |s.nodes| == |s'.nodes| && RingsGrow(s, s')
    requires n < |s.nodes| && SameProgress(s.nodes[n], s'.nodes[n])
    requires NodeTracks(s, n)
    ensures NodeTracks(s', n)
  {
    forall i: nat | i < |s.nodes| && i != n
      ensures Tracks(s'.rings[i], i, s'.nodes[n].heads[i], s'.nodes[n].clock[i], s'.nodes[n].cons)
    {
      TracksFrame(s.rings[i], s'.rings[i], i, s.nodes[n].heads[i], s.nodes[n].clock[i], s.nodes[n].cons);
    }
  }

  /** Steps that move neither a head nor a clock. */
  lemma QuietConsumerTracks(s: State, n: nat, b: ConsumerStep, i: nat)
    requires s.WF() && n < |s.nodes| && ConsumerPossible(s, n, b) && (b.Invalidate? || b.Leave? || b.UnlockHead?)
    requires i < |s.nodes| && i != n
    requires Tracks(s.rings[i], i, s.nodes[n].heads[i], s.nodes[n].clock[i], s.nodes[n].cons)
    ensures var nd' := ApplyConsumer(s, n, b).nodes[n];
            && Tracks(s.rings[i], i, nd'.heads[i], nd'.clock[i], nd'.cons)
            && nd'.clock[i] == s.nodes[n].clock[i] && nd'.heads[i] == s.nodes[n].heads[i]
  {
  }

  /** The steps of a consumer keep its own node exact, ring by ring. */
  lemma ConsumerTracks(s: State, n: nat, b: ConsumerStep, i: nat)
    requires s.WF() && n < |s.nodes| && ConsumerPossible(s, n, b)
    requires i < |s.nodes| && i != n
    requires Tracks(s.rings[i], i, s.nodes[n].heads[i], s.nodes[n].clock[i], s.nodes[n].cons)
    ensures var nd' := ApplyConsumer(s, n, b).nodes[n];
            && Tracks(s.rings[i], i, nd'.heads[i], nd'.clock[i], nd'.cons)
            && s.nodes[n].clock[i] <= nd'.clock[i]
            && s.nodes[n].heads[i] <= nd'.heads[i]
  {
    var r, head, clock, cons := s.rings[i], s.nodes[n].heads[i], s.nodes[n].clock[i], s.nodes[n].cons;
    match b
    case LockHead(who, j) => LockTracks(r, i, head, clock, who, j);
    case TakeHead =>
      if cons.ring == i {
        TakeTracks(r, i, head, clock, cons);
      }
    case StoreClock =>
      if cons.ring == i {
        StoreTracks(r, i, head, clock, cons);
      }
    case ConsumeHead =>
    case _ => QuietConsumerTracks(s, n, b, i);
  }

  lemma ThreadStepFrame(s: State, t: nat, a: ThreadStep)
    requires s.WF() && t < |s.threads| && ThreadPossible(s, t, a)
    ensures forall n: nat | n < |s.nodes| :: SameProgress(s.nodes[n], ApplyThread(s, t, a).nodes[n])
    ensures forall u: nat | u < |s.threads| && u != t :: ApplyThread(s, t, a).threads[u] == s.threads[u]
    ensures ApplyThread(s, t, a).threads[t].node == s.threads[t].node
  {
  }

  lemma CacheStepFrame(s: State, n: nat, c: CacheStep)
    requires s.WF() && n < |s.nodes| && CachePossible(s, n, c)
    ensures forall m: nat | m < |s.nodes| :: SameProgress(s.nodes[m], ApplyCache(s, n, c).nodes[m])
    ensures var s' := ApplyCache(s, n, c); s'.threads == s.threads && s'.rings == s.rings && s'.locs == s.locs
  {
  }

  lemma ConsumerStepFrame(s: State, n: nat, b: ConsumerStep)
    requires s.WF() && n < |s.nodes| && ConsumerPossible(s, n, b)
    ensures var s' := ApplyConsumer(s, n, b); s'.rings == s.rings && s'.locs == s.locs && s'.latest == s.latest
    ensures forall m: nat | m < |s.nodes| && m != n :: ApplyConsumer(s, n, b).nodes[m] == s.nodes[m]
    ensures forall u: nat | u < |s.threads| ::
              var th, th' := s.threads[u], ApplyConsumer(s, n, b).threads[u];
              th == th' || (b.Leave? && s.nodes[n].cons.HeldBy(u) && u < |s.threads| && th.pc.Acquiring?
                            && s.nodes[n].cons.ring < |s.nodes| && th' == NodeDone(s, u, s.nodes[n].cons.ring))
  {
  }

  lemma StepTracks(s: State, step: Step)
    requires AllTrack(s) && Possible(s, step)
    requires step.ByThread? && step.a.Commit? ==> Reservation(s, step.t)
    ensures AllTrack(Apply(s, step))
    ensures RingsGrow(s, Apply(s, step))
  {
    var s' := Apply(s, step);
    match step {
      case ByCache(n, c) => CacheStepFrame(s, n, c);
      case ByThread(t, a) =>
        ThreadStepFrame(s, t, a);
        ApplyGrows(s, t, a);
      case ByConsumer(n, b) => ConsumerStepFrame(s, n, b);
    }
    forall m: nat | m < |s.nodes| ensures NodeTracks(s', m) {
      if step.ByConsumer? && step.n == m {
        assert NodeTracks(s, m);
        forall i: nat | i < |s.nodes| && i != m
          ensures Tracks(s'.rings[i], i, s'.nodes[m].heads[i], s'.nodes[m].clock[i], s'.nodes[m].cons)
        {
          ConsumerTracks(s, m, step.b, i);
        }
      } else {
        NodeTracksFrame(s, s', m);
      }
    }
  }

  /** Cache clocks and heads never go back. */
  lemma StepAdvances(s: State, step: Step, n: nat, i: nat)
    requires AllTrack(s) && Possible(s, step) && n < |s.nodes| && i < |s.nodes| && i != n
    ensures s.nodes[n].clock[i] <= Apply(s, step).nodes[n].clock[i]
    ensures s.nodes[n].heads[i] <= Apply(s, step).nodes[n].heads[i]
  {
    assert NodeTracks(s, n);
    match step
    case ByCache(m, c) => CacheStepFrame(s, m, c);
    case ByThread(t, a) => ThreadStepFrame(s, t, a);
    case ByConsumer(m, b) =>
      if m == n {
        ConsumerTracks(s, n, b, i);
      } else {
        ConsumerStepFrame(s, m, b);
      }
  }

  /** Whenever the head mutex of a node is free, its clock is the last release log it has consumed. */
  lemma ClockIsExact(s: State, n: nat, i: nat)
    requires AllTrack(s) && n < |s.nodes| && i < |s.nodes| && i != n && s.nodes[n].cons.Free?
    ensures s.nodes[n].heads[i] <= |s.rings[i]|
    ensures s.nodes[n].clock[i] == LastRelease(s.rings[i], s.nodes[n].heads[i])
    ensures IsReleaseIndex(s.rings[i], s.nodes[n].clock[i])
    ensures forall c: nat | c <= s.nodes[n].heads[i] && IsReleaseIndex(s.rings[i], c) :: c <= s.nodes[n].clock[i]
  {
    assert NodeTracks(s, n);
    LastReleaseIsLargest(s.rings[i], s.nodes[n].heads[i]);
  }
}
