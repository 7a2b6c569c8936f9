/**
 The protocol over whole runs.  Every guarded load returns the word that the last store to it wrote, as if
 there were one memory and no caches; and in every reachable state a stale copy is clean and announced.
 */
module CoherenceTheorems {
  import opened Clocks
  import opened Broadcast
  import opened Protocol
  import opened Progress
  import opened Threads
  import opened Waiting
  import opened Coherence

  ghost predicate FreshNode(s: State, n: nat)
    requires n < |s.nodes|
  {
    && s.nodes[n].cons.Free?
    && |s.nodes[n].heads| == |s.nodes| && s.nodes[n].heads == Zero(|s.nodes|) && s.nodes[n].clock == Zero(|s.nodes|)
    && forall l: Line | l in s.nodes[n].cache :: s.nodes[n].cache[l] == Copy(At(s.mem, l), false)
  }

  ghost predicate FreshThread(s: State, t: nat)
    requires t < |s.threads|
  {
    s.threads[t].node < |s.nodes|
    && s.threads[t] == Thread(s.threads[t].node, {}, 0, Zero(|s.nodes|), Zero(|s.nodes|), Idle)
  }

  /** Nothing published, nothing dirty; memory holds anything and caches may hold clean copies of it. */
  ghost predicate Init(s: State) {
    && s.mem == s.latest
    && |s.rings| == |s.nodes| && (forall i: nat | i < |s.rings| :: s.rings[i] == [])
    && (forall x: nat | x < |s.locs| :: s.locs[x] == Zero(|s.nodes|))
    && (forall n: nat | n < |s.nodes| :: FreshNode(s, n))
    && (forall t: nat | t < |s.threads| :: FreshThread(s, t))
  }

  lemma InitInv(s: State)
    requires Init(s)
    ensures Inv(s)
  {
    assert s.WF() by {
      forall n | 0 <= n < |s.nodes| ensures |s.nodes[n].heads| == |s.nodes| && |s.nodes[n].clock| == |s.nodes| {
        assert FreshNode(s, n);
      }
      forall t | 0 <= t < |s.threads| ensures s.ThreadWF(s.threads[t]) {
        assert FreshThread(s, t);
      }
    }
    forall t: nat | t < |s.threads|
      ensures PcOk(s.threads[t], s.rings[s.threads[t].node]) && ThreadGenuine(s.rings, s.threads[t])
      ensures ThreadWaited(s.threads[t], t, s.nodes[s.threads[t].node]) && !s.threads[t].pc.Reserving?
    {
      assert FreshThread(s, t);
    }
    forall n: nat | n < |s.nodes| ensures NodeTracks(s, n) && HolderOk(s, n) {
      assert FreshNode(s, n);
    }
    forall l: Line ensures LineOk(s, l) {
      forall n: nat | n < |s.nodes| ensures CopyOk(s, n, l) {
        assert FreshNode(s, n);
      }
    }
  }

  /** A run: states[k+1] results from steps[k], each step being possible and race free. */
  ghost predicate IsRun(states: seq<State>, steps: seq<Step>) {
    && |states| == |steps| + 1
    && Init(states[0])
    && forall k: nat | k < |steps| :: MovesAt(states, steps, k)
  }

  ghost predicate MovesAt(states: seq<State>, steps: seq<Step>, k: nat)
    requires |states| == |steps| + 1 && k < |steps|
  {
    Moves(states[k], steps[k], states[k + 1])
  }

  ghost predicate Moves(s: State, step: Step, s': State) {
    s.WF() && Possible(s, step) && Guarded(s, step) && s' == Apply(s, step)
  }

  /** The reference: one memory to which the stores of a run are applied in order, and nothing else is. */
  ghost function Reference(m: map<Line, Data>, steps: seq<Step>): map<Line, Data> {
    if steps == [] then m
    else
      var m1 := Reference(m, steps[..|steps| - 1]);
      var last := steps[|steps| - 1];
      if last.ByThread? && last.a.Store? then m1[last.a.l := At(m1, last.a.l)[last.a.w := last.a.v]] else m1
  }

  lemma {:induction false} RunInv(states: seq<State>, steps: seq<Step>, k: nat)
    requires IsRun(states, steps) && k < |states|
    ensures Inv(states[k])
  {
    if k == 0 {
      InitInv(states[0]);
    } else {
      RunInv(states, steps, k - 1);
      assert MovesAt(states, steps, k - 1);
      StepKeepsInv(states[k - 1], steps[k - 1]);
    }
  }

  lemma LatestMoves(s: State, step: Step)
    requires s.WF() && Possible(s, step)
    ensures Apply(s, step).latest ==
            if step.ByThread? && step.a.Store?
            then s.latest[step.a.l := At(s.latest, step.a.l)[step.a.w := step.a.v]] else s.latest
  {
    match step
    case ByCache(n, c) =>
    case ByThread(t, a) =>
    case ByConsumer(n, b) => ConsumerStepFrame(s, n, b);
  }

  lemma {:induction false} LatestIsReference(states: seq<State>, steps: seq<Step>, k: nat)
    requires IsRun(states, steps) && k < |states|
    ensures states[k].latest == Reference(states[0].mem, steps[..k])
  {
    if k > 0 {
      LatestIsReference(states, steps, k - 1);
      assert MovesAt(states, steps, k - 1);
      LatestMoves(states[k - 1], steps[k - 1]);
      assert steps[..k][..k - 1] == steps[..k - 1];
    }
  }

  /**
   Coherence.  In every run, whatever the interleaving, the prefetches and the evictions, a load returns
   what the reference memory holds, and a store works on the reference content of its line.
   */
  lemma AccessesAreCoherent(states: seq<State>, steps: seq<Step>, k: nat)
    requires IsRun(states, steps) && k < |steps| && steps[k].ByThread?
    ensures steps[k].a.Load? ==>
              steps[k].a.v == Word(At(Reference(states[0].mem, steps[..k]), steps[k].a.l), steps[k].a.w)
    ensures steps[k].a.Store? ==>
              var s, t := states[k], steps[k].t;
              && s.WF() && t < |s.threads|
              && Visible(s, s.threads[t].node, steps[k].a.l) == At(Reference(states[0].mem, steps[..k]), steps[k].a.l)
  {
    RunInv(states, steps, k);
    LatestIsReference(states, steps, k);
    assert MovesAt(states, steps, k);
    if steps[k].a.Load? || steps[k].a.Store? {
      assert LineOk(states[k], steps[k].a.l);
      VisibleIsLatest(states[k], steps[k].t, steps[k].a.l);
    }
  }

  /** In every reachable state a stale copy is clean and has a pending notice. */
  lemma StaleImpliesNotice(states: seq<State>, steps: seq<Step>, k: nat, n: nat, l: Line)
    requires IsRun(states, steps) && k < |states| && n < |states[k].nodes| && l in states[k].nodes[n].cache
    requires states[k].nodes[n].cache[l].data != At(Reference(states[0].mem, steps[..k]), l)
    ensures states[k].WF() && !DirtyAt(states[k], n, l) && Notice(states[k], n, l)
  {
    RunInv(states, steps, k);
    LatestIsReference(states, steps, k);
    assert LineOk(states[k], l);
    assert CopyOk(states[k], n, l);
  }

  /** Memory itself is stale only while some node holds the line dirty, with the latest content. */
  lemma StaleMemoryIsOwned(states: seq<State>, steps: seq<Step>, k: nat, l: Line)
    requires IsRun(states, steps) && k < |states|
    requires At(states[k].mem, l) != At(Reference(states[0].mem, steps[..k]), l)
    ensures exists n: nat | n < |states[k].nodes| ::
              DirtyAt(states[k], n, l)
              && states[k].nodes[n].cache[l].data == At(Reference(states[0].mem, steps[..k]), l)
              && OwnedOn(states[k], n, l)
  {
    RunInv(states, steps, k);
    LatestIsReference(states, steps, k);
    assert LineOk(states[k], l);
    var n: nat :| n < |states[k].nodes| && DirtyAt(states[k], n, l);
    assert CopyOk(states[k], n, l);
  }

  ghost predicate Ahead(s: State, s': State, n: nat, i: nat)
    requires s.WF() && n < |s.nodes| && i < |s.nodes|
  {
    && s'.WF() && |s'.nodes| == |s.nodes|
    && s.nodes[n].clock[i] <= s'.nodes[n].clock[i] && s.nodes[n].heads[i] <= s'.nodes[n].heads[i]
  }

  /** Cache clocks and heads are monotone along a run, whoever stores them. */
  lemma {:induction false} ClocksNeverGoBack(states: seq<State>, steps: seq<Step>, j: nat, k: nat, n: nat, i: nat)
    requires IsRun(states, steps) && j <= k < |states|
    requires states[j].WF() && n < |states[j].nodes| && i < |states[j].nodes| && i != n
    ensures Ahead(states[j], states[k], n, i)
    decreases k
  {
    if j < k {
      ClocksNeverGoBack(states, steps, j, k - 1, n, i);
      RunInv(states, steps, k - 1);
      assert MovesAt(states, steps, k - 1);
      StepAdvances(states[k - 1], steps[k - 1], n, i);
    }
  }
}
