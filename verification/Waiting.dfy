/**
 The link between threads and their node: the clock components a thread has waited for never exceed the
 cache clock of its node, although helpers and the cache agent both store that clock.
 */
module Waiting {
  import opened Clocks
  import opened Broadcast
  import opened Protocol
  import opened Progress

  /** The wait of thread t for ring i is over, or t itself is about to store the clock that ends it. */
  ghost predicate WaitOver(nd: Node, t: nat, i: nat, waited: nat)
    requires i < |nd.clock|
  {
    || waited <= nd.clock[i]
    || (nd.cons.HeldBy(t) && nd.cons.ring == i && nd.cons.phase.Leaving? && waited <= nd.cons.clk)
  }

  ghost predicate ThreadWaited(th: Thread, t: nat, nd: Node)
    requires |nd.clock| == |th.seen|
    requires th.pc.Acquiring? || th.pc.Merging? ==> |th.pc.waited| == |th.seen|
  {
    && (forall i: nat | i < |th.seen| && i != th.node :: th.seen[i] <= nd.clock[i])
    && (th.pc.Acquiring? ==> forall i: nat | i < |th.seen| && i != th.node :: WaitOver(nd, t, i, th.pc.waited[i]))
    && (th.pc.Merging? ==> forall i: nat | i < |th.seen| && i != th.node :: th.pc.waited[i] <= nd.clock[i])
  }

  ghost predicate HolderOk(s: State, n: nat)
    requires s.WF() && n < |s.nodes|
  {
    s.nodes[n].cons.Busy? && s.nodes[n].cons.who.Helper? ==>
      var t := s.nodes[n].cons.who.t;
      t < |s.threads| && s.threads[t].node == n && s.threads[t].pc.Acquiring?
  }

  ghost predicate AllWaited(s: State) {
    && s.WF()
    && (forall n: nat | n < |s.nodes| :: HolderOk(s, n))
    && (forall t: nat | t < |s.threads| :: ThreadWaited(s.threads[t], t, s.nodes[s.threads[t].node]))
  }

  lemma ThreadStepHolder(s: State, t: nat, a: ThreadStep, n: nat)
    requires AllWaited(s) && t < |s.threads| && ThreadPossible(s, t, a) && n < |s.nodes|
    ensures HolderOk(ApplyThread(s, t, a), n)
  {
    assert HolderOk(s, n);
    ThreadStepFrame(s, t, a);
  }

  lemma ThreadStepWaited(s: State, t: nat, a: ThreadStep)
    requires AllWaited(s) && t < |s.threads| && ThreadPossible(s, t, a)
    ensures var s' := ApplyThread(s, t, a); ThreadWaited(s'.threads[t], t, s'.nodes[s'.threads[t].node])
  {
    var n := s.threads[t].node;
    assert ThreadWaited(s.threads[t], t, s.nodes[n]);
    ThreadStepFrame(s, t, a);
    OwnStepWaited(s, t, a);
    WaitedFrame(ApplyThread(s, t, a).threads[t], t, s.nodes[n], ApplyThread(s, t, a).nodes[n]);
  }

  /** The new record of the thread, judged by its node as it was. */
  lemma OwnStepWaited(s: State, t: nat, a: ThreadStep)
    requires s.WF() && t < |s.threads| && ThreadPossible(s, t, a)
    requires ThreadWaited(s.threads[t], t, s.nodes[s.threads[t].node])
    ensures ThreadWaited(ApplyThread(s, t, a).threads[t], t, s.nodes[s.threads[t].node])
  {
    if a.CheckNode? || a.BeginAcquire? || a.BeginMerge? || a.MergeElement? {
      AcquireStepWaited(s, t, a);
    } else {
      OtherStepWaited(s, t, a);
    }
  }

  lemma AcquireStepWaited(s: State, t: nat, a: ThreadStep)
    requires s.WF() && t < |s.threads| && ThreadPossible(s, t, a)
    requires a.CheckNode? || a.BeginAcquire? || a.BeginMerge? || a.MergeElement?
    requires ThreadWaited(s.threads[t], t, s.nodes[s.threads[t].node])
    ensures ThreadWaited(ApplyThread(s, t, a).threads[t], t, s.nodes[s.threads[t].node])
  {
    if a.MergeElement? {
      MergeWaited(s, t);
    } else if a.CheckNode? {
      CheckWaited(s, t, a.i);
    }
  }

  lemma MergeWaited(s: State, t: nat)
    requires s.WF() && t < |s.threads| && s.threads[t].pc.Merging?
    requires ThreadWaited(s.threads[t], t, s.nodes[s.threads[t].node])
    ensures ThreadWaited(DoMergeElement(s, t).threads[t], t, s.nodes[s.threads[t].node])
  {
  }

  lemma CheckWaited(s: State, t: nat, i: nat)
    requires s.WF() && t < |s.threads| && ThreadPossible(s, t, CheckNode(i))
    requires ThreadWaited(s.threads[t], t, s.nodes[s.threads[t].node])
    ensures ThreadWaited(NodeDone(s, t, i), t, s.nodes[s.threads[t].node])
  {
  }

  lemma OtherStepWaited(s: State, t: nat, a: ThreadStep)
    requires s.WF() && t < |s.threads| && ThreadPossible(s, t, a)
    requires !a.CheckNode? && !a.BeginAcquire? && !a.BeginMerge? && !a.MergeElement?
    requires ThreadWaited(s.threads[t], t, s.nodes[s.threads[t].node])
    ensures ThreadWaited(ApplyThread(s, t, a).threads[t], t, s.nodes[s.threads[t].node])
  {
    var th' := ApplyThread(s, t, a).threads[t];
    assert th'.seen == s.threads[t].seen && th'.node == s.threads[t].node;
    assert th'.pc == s.threads[t].pc || (!th'.pc.Acquiring? && !th'.pc.Merging?);
  }

  lemma ConsumerStepHolder(s: State, n: nat, b: ConsumerStep)
    requires AllWaited(s) && n < |s.nodes| && ConsumerPossible(s, n, b)
    ensures forall m: nat | m < |s.nodes| :: HolderOk(ApplyConsumer(s, n, b), m)
  {
    ConsumerStepFrame(s, n, b);
    forall m: nat | m < |s.nodes| ensures HolderOk(ApplyConsumer(s, n, b), m) {
      assert HolderOk(s, m);
      assert HolderOk(s, n);
    }
  }

  lemma ConsumerStepWaited(s: State, n: nat, b: ConsumerStep, t: nat)
    requires AllWaited(s) && AllTrack(s) && n < |s.nodes| && ConsumerPossible(s, n, b)
    requires t < |s.threads| && s.threads[t].node == n
    ensures var s' := ApplyConsumer(s, n, b); ThreadWaited(s'.threads[t], t, s'.nodes[n])
  {
    var s' := ApplyConsumer(s, n, b);
    var th, th' := s.threads[t], s'.threads[t];
    assert ThreadWaited(th, t, s.nodes[n]);
    ConsumerStepFrame(s, n, b);
    forall i: nat | i < |s.nodes| && i != n ensures s.nodes[n].clock[i] <= s'.nodes[n].clock[i] {
      StepAdvances(s, ByConsumer(n, b), n, i);
    }
    if th.pc.Acquiring? {
      forall i: nat | i < |s.nodes| && i != n ensures WaitOver(s'.nodes[n], t, i, th'.pc.waited[i]) {
        assert WaitOver(s.nodes[n], t, i, th.pc.waited[i]);
      }
    }
  }

  lemma WaitedFrame(th: Thread, t: nat, nd: Node, nd': Node)
    requires |nd.clock| == |th.seen| && (th.pc.Acquiring? || th.pc.Merging? ==> |th.pc.waited| == |th.seen|)
    requires SameProgress(nd, nd') && ThreadWaited(th, t, nd)
    ensures ThreadWaited(th, t, nd')
  {
    if th.pc.Acquiring? {
      forall i: nat | i < |th.seen| && i != th.node ensures WaitOver(nd', t, i, th.pc.waited[i]) {
        assert WaitOver(nd, t, i, th.pc.waited[i]);
      }
    }
  }

  lemma StepHolders(s: State, step: Step, m: nat)
    requires AllWaited(s) && Possible(s, step) && m < |s.nodes|
    ensures HolderOk(Apply(s, step), m)
  {
    match step
    case ByCache(n, c) =>
      CacheStepFrame(s, n, c);
      assert HolderOk(s, m);
    case ByThread(t, a) => ThreadStepHolder(s, t, a, m);
    case ByConsumer(n, b) => ConsumerStepHolder(s, n, b);
  }

  /** A step neither of this thread nor of the consumer of its node. */
  lemma OtherStepFrame(s: State, step: Step, t: nat)
    requires AllWaited(s) && Possible(s, step) && t < |s.threads|
    requires !(step.ByThread? && step.t == t) && !(step.ByConsumer? && s.threads[t].node == step.n)
    ensures Apply(s, step).threads[t] == s.threads[t]
    ensures SameProgress(s.nodes[s.threads[t].node], Apply(s, step).nodes[s.threads[t].node])
  {
    match step {
      case ByCache(n, c) => CacheStepFrame(s, n, c);
      case ByThread(u, a) => ThreadStepFrame(s, u, a);
      case ByConsumer(n, b) =>
        ConsumerStepFrame(s, n, b);
        assert HolderOk(s, n);
    }
  }

  lemma StepThreadWaited(s: State, step: Step, s': State, t: nat)
    requires AllWaited(s) && AllTrack(s) && Possible(s, step) && s' == Apply(s, step) && t < |s.threads|
    ensures ThreadWaited(s'.threads[t], t, s'.nodes[s'.threads[t].node])
  {
    if step.ByConsumer? && s.threads[t].node == step.n {
      ConsumerStepFrame(s, step.n, step.b);
      ConsumerStepWaited(s, step.n, step.b, t);
    } else if step.ByThread? && step.t == t {
      ThreadStepWaited(s, t, step.a);
    } else {
      OtherStepFrame(s, step, t);
      assert ThreadWaited(s.threads[t], t, s.nodes[s.threads[t].node]);
      WaitedFrame(s.threads[t], t, s.nodes[s.threads[t].node], s'.nodes[s.threads[t].node]);
    }
  }

  lemma StepWaited(s: State, step: Step)
    requires AllWaited(s) && AllTrack(s) && Possible(s, step)
    ensures AllWaited(Apply(s, step))
  {
    var s' := Apply(s, step);
    forall m: nat | m < |s.nodes| ensures HolderOk(s', m) {
      StepHolders(s, step, m);
    }
    forall t: nat | t < |s.threads| ensures ThreadWaited(s'.threads[t], t, s'.nodes[s'.threads[t].node]) {
      StepThreadWaited(s, step, s', t);
    }
  }

  /** A thread never claims to have seen more than its node has really consumed. */
  lemma SeenIsConsumed(s: State, t: nat, i: nat)
    requires AllWaited(s) && AllTrack(s) && t < |s.threads| && i < |s.nodes| && i != s.threads[t].node
    ensures s.threads[t].seen[i] <= s.nodes[s.threads[t].node].clock[i] <= s.nodes[s.threads[t].node].heads[i]
  {
    var n := s.threads[t].node;
    assert NodeTracks(s, n);
    assert Tracks(s.rings[i], i, s.nodes[n].heads[i], s.nodes[n].clock[i], s.nodes[n].cons);
    assert ThreadWaited(s.threads[t], t, s.nodes[n]);
  }
}
