/** The freelist is a linearizable FIFO queue, over every interleaving of one producer and its consumers. */
module FreelistTheorems {
  import opened Pigeonhole
  import opened Freelist

  ghost predicate Init(s: State) {
    && s.Shape() && s.enq == 0 && s.deq == 0 && s.prod == Ready
    && (forall j: nat | j < s.size :: s.seqs[j] == j)
    && (forall t: nat | t < |s.cons| :: s.cons[t] == Waiting)
  }

  ghost predicate MovesAt(states: seq<State>, steps: seq<Step>, k: nat)
    requires |states| == |steps| + 1 && k < |steps|
  {
    states[k].Shape() && Possible(states[k], steps[k]) && states[k + 1] == Apply(states[k], steps[k])
  }

  ghost predicate IsRun(states: seq<State>, steps: seq<Step>) {
    |states| == |steps| + 1 && Init(states[0]) && forall k: nat | k < |steps| :: MovesAt(states, steps, k)
  }

  lemma {:induction false} RunInv(states: seq<State>, steps: seq<Step>, k: nat)
    requires IsRun(states, steps) && k < |states|
    ensures Inv(states[k])
  {
    if k > 0 {
      RunInv(states, steps, k - 1);
      assert MovesAt(states, steps, k - 1);
      StepKeepsInv(states[k - 1], steps[k - 1]);
    }
  }

  /**
   Each step is one queue operation or none: releasing a filled cell appends the value, winning the
   compare-exchange takes the first value, and no other step changes the queue.
   */
  lemma StepRefinesQueue(s: State, step: Step)
    requires Inv(s) && Possible(s, step) && Apply(s, step).Shape()
    ensures match step {
              case ReleaseCell => Apply(s, step).Queue() == s.Queue() + [s.prod.v]
              case Win(t) =>
                s.cons[t].pos == s.deq < |s.hist| && s.Queue() == [s.hist[s.deq]] + Apply(s, step).Queue()
              case _ => Apply(s, step).Queue() == s.Queue()
            }
  {
    StepHistory(s, step);
    if step.Win? {
      assert ConsumerOk(s, step.t);
      assert s.hist[s.deq..s.Visible()] == [s.hist[s.deq]] + s.hist[s.deq + 1..s.Visible()];
    }
  }

  /** What each step does to the visible history and to the number of dequeued positions. */
  lemma StepHistory(s: State, step: Step)
    requires Inv(s) && Possible(s, step)
    ensures var s' := Apply(s, step);
            && s'.Shape() && s'.deq == s.deq + (if step.Win? then 1 else 0)
            && s.hist <= s'.hist && s.Visible() <= |s.hist|
            && s'.Visible() == s.Visible() + (if step.ReleaseCell? then 1 else 0)
            && (step.ReleaseCell? ==> s.Visible() < |s.hist| && s.hist[s.Visible()] == s.prod.v)
  {
    if step.ClaimCell? {
      assert Apply(s, step).hist == s.hist + [s.prod.v];
    }
  }

  // ---- what the operations of a run add up to ----

  /** The argument of the last enqueue begun. */
  ghost function Argument(steps: seq<Step>): Value {
    if steps == [] then 0
    else if steps[|steps| - 1].BeginEnqueue? then steps[|steps| - 1].v
    else Argument(steps[..|steps| - 1])
  }

  /** The arguments of the enqueues that took effect, in order. */
  ghost function Enqueued(steps: seq<Step>): seq<Value> {
    if steps == [] then []
    else
      var before := steps[..|steps| - 1];
      Enqueued(before) + if steps[|steps| - 1].ReleaseCell? then [Argument(before)] else []
  }

  /** How many dequeues have taken effect. */
  ghost function Dequeues(steps: seq<Step>): nat {
    if steps == [] then 0 else Dequeues(steps[..|steps| - 1]) + if steps[|steps| - 1].Win? then 1 else 0
  }

  lemma VisibleHistory(s: State, step: Step)
    requires Inv(s) && Possible(s, step)
    ensures var s' := Apply(s, step);
            && s'.Shape() && s'.Visible() <= |s'.hist| && s.Visible() <= |s.hist|
            && s'.hist[..s'.Visible()] == s.hist[..s.Visible()] + if step.ReleaseCell? then [s.prod.v] else []
  {
    StepHistory(s, step);
  }

  ghost predicate Offers(s: State, v: Value) {
    s.prod.Placed? || s.prod.Looked? || s.prod.Claimed? || s.prod.Filled? ==> s.prod.v == v
  }

  lemma StepOffers(s: State, step: Step, v: Value)
    requires s.Shape() && Possible(s, step) && Offers(s, v)
    ensures Offers(Apply(s, step), if step.BeginEnqueue? then step.v else v)
  {
  }

  /** The producer works on the argument it was given. */
  lemma {:induction false} RunOffers(states: seq<State>, steps: seq<Step>, k: nat)
    requires IsRun(states, steps) && k < |states|
    ensures Offers(states[k], Argument(steps[..k]))
  {
    if k > 0 {
      RunOffers(states, steps, k - 1);
      assert MovesAt(states, steps, k - 1);
      assert steps[..k][..k - 1] == steps[..k - 1];
      StepOffers(states[k - 1], steps[k - 1], Argument(steps[..k - 1]));
    }
  }

  lemma {:induction false} RunDequeues(states: seq<State>, steps: seq<Step>, k: nat)
    requires IsRun(states, steps) && k < |states|
    ensures Inv(states[k]) && Dequeues(steps[..k]) == states[k].deq
  {
    RunInv(states, steps, k);
    if k > 0 {
      RunDequeues(states, steps, k - 1);
      assert MovesAt(states, steps, k - 1);
      StepHistory(states[k - 1], steps[k - 1]);
      assert steps[..k][..k - 1] == steps[..k - 1];
    }
  }

  lemma {:induction false} RunQueue(states: seq<State>, steps: seq<Step>, k: nat)
    requires IsRun(states, steps) && k < |states|
    ensures Inv(states[k])
    ensures Dequeues(steps[..k]) == states[k].deq
    ensures states[k].Visible() <= |states[k].hist|
    ensures Enqueued(steps[..k]) == states[k].hist[..states[k].Visible()]
  {
    RunDequeues(states, steps, k);
    if k > 0 {
      RunQueue(states, steps, k - 1);
      RunOffers(states, steps, k - 1);
      assert MovesAt(states, steps, k - 1);
      VisibleHistory(states[k - 1], steps[k - 1]);
      assert steps[..k][..k - 1] == steps[..k - 1];
    }
  }

  /** The queue holds exactly what was enqueued and not yet dequeued, in order. */
  lemma QueueIsTheRest(states: seq<State>, steps: seq<Step>, k: nat)
    requires IsRun(states, steps) && k < |states|
    ensures states[k].Shape() && Dequeues(steps[..k]) <= |Enqueued(steps[..k])|
    ensures states[k].Queue() == Enqueued(steps[..k])[Dequeues(steps[..k])..]
  {
    RunQueue(states, steps, k);
  }

  /** First in, first out, at most once: the dequeue that took effect as number pos returns the value that
      was enqueued as number pos, and no two dequeues have the same number. */
  lemma DequeueIsFifo(states: seq<State>, steps: seq<Step>, k: nat, t: nat)
    requires IsRun(states, steps) && k < |steps| && steps[k] == Release(t)
    ensures t < |states[k].cons| && states[k].cons[t].Copied?
    ensures var pos := states[k].cons[t].pos;
            && pos < |Enqueued(steps[..k])| && states[k].cons[t].v == Enqueued(steps[..k])[pos]
            && forall u: nat |
                 u < |states[k].cons| && u != t && (states[k].cons[u].Won? || states[k].cons[u].Copied?) ::
                 states[k].cons[u].pos != pos
  {
    RunQueue(states, steps, k);
    assert MovesAt(states, steps, k);
    assert ConsumerOk(states[k], t);
    forall u: nat | u < |states[k].cons| && u != t && (states[k].cons[u].Won? || states[k].cons[u].Copied?)
      ensures states[k].cons[u].pos != states[k].cons[t].pos
    {
      assert ConsumerOk(states[k], u);
    }
  }

  // ---- from the compare-exchange to the return ----

  ghost predicate Keeps(s: State, t: nat, pos: nat)
    requires s.Shape()
  {
    t < |s.cons| && (s.cons[t].Won? || s.cons[t].Copied? || s.cons[t].Returned?) && s.cons[t].pos == pos
  }

  lemma StepKeeps(s: State, step: Step, t: nat, pos: nat)
    requires s.Shape() && Possible(s, step) && Apply(s, step).Shape() && Keeps(s, t, pos) && step != EndDequeue(t)
    ensures Keeps(Apply(s, step), t, pos)
  {
  }

  lemma {:induction false} WinnerKeeps(states: seq<State>, steps: seq<Step>, w: nat, k: nat, t: nat)
    requires IsRun(states, steps) && w < k < |states| && steps[w] == Win(t)
    requires forall q: nat | w < q < k :: steps[q] != EndDequeue(t)
    ensures states[k].Shape() && Keeps(states[k], t, Dequeues(steps[..w]))
    decreases k
  {
    RunInv(states, steps, k);
    assert MovesAt(states, steps, k - 1);
    if k == w + 1 {
      WinsAreNumbered(states, steps, w, t);
    } else {
      WinnerKeeps(states, steps, w, k - 1, t);
      StepKeeps(states[k - 1], steps[k - 1], t, Dequeues(steps[..w]));
    }
  }

  /** What a dequeue returns: the argument of enqueue number n, n being the number of compare-exchanges won before
      its own. */
  lemma ReturnsInOrder(states: seq<State>, steps: seq<Step>, w: nat, k: nat, t: nat)
    requires IsRun(states, steps) && w < k < |steps| && steps[w] == Win(t) && steps[k] == EndDequeue(t)
    requires forall q: nat | w < q < k :: steps[q] != EndDequeue(t)
    ensures t < |states[k].cons| && states[k].cons[t].Returned?
    ensures Dequeues(steps[..w]) < |Enqueued(steps[..k])|
    ensures states[k].cons[t].v == Enqueued(steps[..k])[Dequeues(steps[..w])]
  {
    WinnerKeeps(states, steps, w, k, t);
    RunQueue(states, steps, k);
    assert MovesAt(states, steps, k);
    assert ConsumerOk(states[k], t);
  }

  /** The position a dequeue wins is the number of dequeues before it, so numbers are never reused. */
  lemma WinsAreNumbered(states: seq<State>, steps: seq<Step>, k: nat, t: nat)
    requires IsRun(states, steps) && k < |steps| && steps[k] == Win(t)
    ensures t < |states[k].cons| && states[k].cons[t].Peeked? && states[k].cons[t].pos == Dequeues(steps[..k])
    ensures Dequeues(steps[..k]) < |Enqueued(steps[..k])|
  {
    RunQueue(states, steps, k);
    assert MovesAt(states, steps, k);
    assert ConsumerOk(states[k], t);
  }

  /** A cell is never overwritten before the dequeue that won its value has read it. */
  lemma WonValueStays(s: State, t: nat)
    requires Inv(s) && t < |s.cons| && s.cons[t].Won?
    ensures s.cons[t].pos < |s.hist| && s.data[SlotOf(s.cons[t].pos, s.size)] == s.hist[s.cons[t].pos]
  {
    assert ConsumerOk(s, t);
    assert InWindow(s, s.cons[t].pos) && CellOk(s, s.cons[t].pos);
  }

  /** dequeue returns false only when the queue was empty at the moment its cell was read, and an empty queue
      is not reported as anything else. */
  lemma FalseMeansEmpty(s: State, t: nat)
    requires Inv(s) && Possible(s, Peek(t)) && Apply(s, Peek(t)).Shape()
    ensures Possible(Apply(s, Peek(t)), GiveUp(t)) ==> s.Queue() == []
    ensures s.Queue() == [] && s.cons[t].pos == s.deq ==> !Possible(Apply(s, Peek(t)), Lose(t))
  {
    assert ConsumerOk(s, t);
    PeekedCell(s, s.cons[t].pos);
  }

  /** enqueue returns false only when, as its cell was read, the value `size` places earlier was still in the
      queue or its dequeue not finished; and with one producer it never has to reload its position. */
  lemma RefusalMeansBusy(s: State)
    requires Inv(s) && s.prod.Placed?
    ensures var s' := Apply(s, LoadCell);
            && s'.Shape() && !Possible(s', Reload)
            && (Possible(s', Refuse) <==>
                  s.size <= s.enq && (s.enq - s.size >= s.deq || s.uses[s.enq - s.size].Busy?))
  {
    NextCell(s);
  }
}
