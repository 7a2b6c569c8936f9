/**
 The freelist: a bounded queue with sequence-numbered cells, one producer and many consumers.  Each load,
 store and compare-exchange of enqueue and dequeue is a step of its own.
 */
module Freelist {
  import opened Pigeonhole

  type Value = nat

  datatype Producer =
    | Ready
    | Placed(v: Value, pos: nat)                  // enqueue_pos_ loaded
    | Looked(v: Value, pos: nat, seen: nat)       // sequence_ of the cell loaded
    | Claimed(v: Value, pos: nat)                 // enqueue_pos_ stored
    | Filled(v: Value, pos: nat)                  // data_ written
    | Refused                                     // returned false

  datatype Consumer =
    | Waiting
    | At(pos: nat)                                // dequeue_pos_ loaded
    | Peeked(pos: nat, seen: nat)                 // sequence_ of the cell loaded
    | Won(pos: nat)                               // compare-exchange succeeded
    | Copied(pos: nat, v: Value)                  // data_ read
    | Returned(pos: nat, v: Value)                // cell released, dequeue returns true with v
    | Empty                                       // dequeue returned false

  // who is still busy with a dequeued position
  datatype Use = Busy(t: nat) | Free

  // hist (all values ever enqueued) and uses (one entry per dequeued position) are history variables
  datatype State = State(
    size: nat, seqs: seq<nat>, data: seq<Value>, enq: nat, deq: nat, prod: Producer, cons: seq<Consumer>,
    hist: seq<Value>, uses: seq<Use>)
  {
    ghost predicate Shape() {
      size >= 2 && |seqs| == size && |data| == size && |hist| == enq && |uses| == deq
    }

    /** How many enqueued values are visible: one less while the producer is between claim and release. */
    ghost function Visible(): nat
      requires Shape()
    {
      if (prod.Claimed? || prod.Filled?) && enq > 0 then enq - 1 else enq
    }

    /** The queue that this structure implements. */
    ghost function Queue(): seq<Value>
      requires Shape()
    {
      if deq <= Visible() then hist[deq..Visible()] else []
    }
  }

  datatype Step =
    | BeginEnqueue(v: Value) | LoadCell | ClaimCell | Reload | Refuse | WriteCell | ReleaseCell | EndEnqueue
    | BeginDequeue(t: nat) | Peek(t: nat) | Win(t: nat) | Lose(t: nat) | MoveOn(t: nat) | GiveUp(t: nat)
    | CopyOut(t: nat) | Release(t: nat) | EndDequeue(t: nat)

  ghost predicate Possible(s: State, step: Step)
    requires s.Shape()
  {
    match step
    case BeginEnqueue(v) => s.prod.Ready?
    case LoadCell => s.prod.Placed?
    case ClaimCell => s.prod.Looked? && s.prod.seen == s.prod.pos
    case Refuse => s.prod.Looked? && s.prod.seen < s.prod.pos
    case Reload => s.prod.Looked? && s.prod.seen > s.prod.pos
    case WriteCell => s.prod.Claimed?
    case ReleaseCell => s.prod.Filled?
    case EndEnqueue => s.prod.Refused?
    case BeginDequeue(t) => t < |s.cons| && s.cons[t].Waiting?
    case Peek(t) => t < |s.cons| && s.cons[t].At?
    // the compare-exchange, which may fail spuriously
    case Win(t) => t < |s.cons| && s.cons[t].Peeked? && s.cons[t].seen == s.cons[t].pos + 1 && s.deq == s.cons[t].pos
    case Lose(t) => t < |s.cons| && s.cons[t].Peeked? && s.cons[t].seen == s.cons[t].pos + 1
    case GiveUp(t) => t < |s.cons| && s.cons[t].Peeked? && s.cons[t].seen < s.cons[t].pos + 1
    case MoveOn(t) => t < |s.cons| && s.cons[t].Peeked? && s.cons[t].seen > s.cons[t].pos + 1
    case CopyOut(t) => t < |s.cons| && s.cons[t].Won?
    case Release(t) => t < |s.cons| && s.cons[t].Copied? && s.cons[t].pos < |s.uses|
    case EndDequeue(t) => t < |s.cons| && (s.cons[t].Returned? || s.cons[t].Empty?)
  }

  function WithConsumer(s: State, t: nat, c: Consumer): State
    requires t < |s.cons|
  {
    s.(cons := s.cons[t := c])
  }

  ghost function Apply(s: State, step: Step): State
    requires s.Shape() && Possible(s, step)
  {
    match step
    case BeginEnqueue(v) => s.(prod := Placed(v, s.enq))
    case LoadCell => s.(prod := Looked(s.prod.v, s.prod.pos, s.seqs[SlotOf(s.prod.pos, s.size)]))
    case ClaimCell =>
      s.(prod := Claimed(s.prod.v, s.prod.pos), enq := s.prod.pos + 1, hist := s.hist + [s.prod.v])
    case Refuse => s.(prod := Refused)
    case Reload => s.(prod := Placed(s.prod.v, s.enq))
    case WriteCell => s.(prod := Filled(s.prod.v, s.prod.pos), data := s.data[SlotOf(s.prod.pos, s.size) := s.prod.v])
    case ReleaseCell => s.(prod := Ready, seqs := s.seqs[SlotOf(s.prod.pos, s.size) := s.prod.pos + 1])
    case EndEnqueue => s.(prod := Ready)
    case BeginDequeue(t) => WithConsumer(s, t, At(s.deq))
    case Peek(t) => WithConsumer(s, t, Peeked(s.cons[t].pos, s.seqs[SlotOf(s.cons[t].pos, s.size)]))
    case Win(t) => WithConsumer(s, t, Won(s.cons[t].pos)).(deq := s.deq + 1, uses := s.uses + [Busy(t)])
    case Lose(t) => WithConsumer(s, t, At(s.deq))
    case MoveOn(t) => WithConsumer(s, t, At(s.deq))
    case GiveUp(t) => WithConsumer(s, t, Empty)
    case CopyOut(t) => WithConsumer(s, t, Copied(s.cons[t].pos, s.data[SlotOf(s.cons[t].pos, s.size)]))
    case Release(t) =>
      var pos := s.cons[t].pos;
      WithConsumer(s, t, Returned(pos, s.cons[t].v))
        .(seqs := s.seqs[SlotOf(pos, s.size) := pos + s.size], uses := s.uses[pos := Free])
    case EndDequeue(t) => WithConsumer(s, t, Waiting)
  }

  // ---- the invariant ----

  ghost predicate InWindow(s: State, p: nat) {
    p < s.enq <= p + s.size
  }

  /** The cell of position p, one of the last `size` positions that were ever claimed. */
  ghost predicate CellOk(s: State, p: nat)
    requires s.Shape() && p < s.enq
  {
    var q, d := s.seqs[SlotOf(p, s.size)], s.data[SlotOf(p, s.size)];
    if p >= s.Visible() then q == p && (s.prod.Filled? ==> d == s.hist[p])
    else if p >= s.deq || s.uses[p].Busy? then q == p + 1 && d == s.hist[p]
    else q == p + s.size
  }

  ghost predicate Fresh(s: State, j: nat)
    requires s.Shape() && j < s.size
  {
    s.enq <= j ==> s.seqs[j] == j
  }

  ghost predicate CellsOk(s: State) {
    && s.Shape()
    && s.deq <= s.Visible() && s.enq <= s.deq + s.size
    && (forall p: nat | InWindow(s, p) :: CellOk(s, p))
    && (forall j: nat | j < s.size :: Fresh(s, j))
    && (forall p: nat | p < s.deq && p + s.size < s.enq :: s.uses[p].Free?)
  }

  ghost predicate ProducerOk(s: State)
    requires s.Shape()
  {
    match s.prod
    case Placed(v, pos) => pos == s.enq
    case Looked(v, pos, seen) =>
      pos == s.enq && seen <= pos && (seen == pos ==> s.seqs[SlotOf(pos, s.size)] == pos)
      && (seen < pos ==> s.size <= pos && InWindow(s, pos - s.size))
    case Claimed(v, pos) => pos + 1 == s.enq && s.hist[pos] == v
    case Filled(v, pos) => pos + 1 == s.enq && s.hist[pos] == v
    case _ => true
  }

  ghost predicate ConsumerOk(s: State, t: nat)
    requires s.Shape() && t < |s.cons|
  {
    match s.cons[t]
    case At(pos) => pos <= s.deq
    case Peeked(pos, seen) => pos <= s.deq && (seen == pos + 1 ==> pos < s.Visible())
    case Won(pos) => pos < s.deq && s.uses[pos] == Busy(t)
    case Copied(pos, v) => pos < s.deq && s.uses[pos] == Busy(t) && pos < |s.hist| && v == s.hist[pos]
    case Returned(pos, v) => pos < s.deq && pos < |s.hist| && v == s.hist[pos]
    case _ => true
  }

  ghost predicate UseOk(s: State, p: nat)
    requires s.Shape() && p < s.deq
  {
    s.uses[p].Busy? ==>
      var t := s.uses[p].t;
      t < |s.cons| && (s.cons[t].Won? || s.cons[t].Copied?) && s.cons[t].pos == p
  }

  ghost predicate Inv(s: State) {
    && CellsOk(s)
    && ProducerOk(s)
    && (forall t: nat | t < |s.cons| :: ConsumerOk(s, t))
    && (forall p: nat | p < s.deq :: UseOk(s, p))
  }

  // ---- what a loaded sequence number says ----

  lemma WindowCells(s: State, p: nat, q: nat)
    requires s.Shape() && InWindow(s, p) && InWindow(s, q) && p != q
    ensures SlotOf(p, s.size) != SlotOf(q, s.size)
  {
    SlotsDiffer(if p < q then p else q, if p < q then q else p, s.size);
  }

  /** The cell at enq carries enq when it is free for the next enqueue, and less when it is not. */
  lemma NextCell(s: State)
    requires CellsOk(s) && !s.prod.Claimed? && !s.prod.Filled?
    ensures s.seqs[SlotOf(s.enq, s.size)] <= s.enq
    ensures s.seqs[SlotOf(s.enq, s.size)] == s.enq ==>
              s.size <= s.enq ==> s.enq - s.size < s.deq && s.uses[s.enq - s.size].Free?
    ensures s.seqs[SlotOf(s.enq, s.size)] < s.enq ==>
              s.size <= s.enq && (s.enq - s.size >= s.deq || s.uses[s.enq - s.size].Busy?)
  {
    if s.enq >= s.size {
      assert InWindow(s, s.enq - s.size);
      assert CellOk(s, s.enq - s.size);
    } else {
      assert Fresh(s, s.enq);
    }
  }

  /** A cell read at a position no later than deq shows pos + 1 only when the value of pos is there. */
  lemma PeekedCell(s: State, pos: nat)
    requires CellsOk(s) && pos <= s.deq
    ensures s.seqs[SlotOf(pos, s.size)] == pos + 1 ==> pos < s.Visible()
    ensures s.seqs[SlotOf(pos, s.size)] < pos + 1 ==> pos == s.deq == s.Visible()
  {
    if pos < s.enq {
      LatestAlias(s, pos);
    } else {
      assert pos == s.enq == s.deq;
      if s.enq >= s.size {
        assert InWindow(s, s.enq - s.size) && CellOk(s, s.enq - s.size);
      } else {
        assert Fresh(s, s.enq);
      }
    }
  }

  /** The cell of an old position shows a number that is not smaller than that of the position itself. */
  lemma LatestAlias(s: State, pos: nat)
    requires CellsOk(s) && pos < s.enq && pos <= s.deq
    ensures s.seqs[SlotOf(pos, s.size)] >= pos
    ensures s.seqs[SlotOf(pos, s.size)] == pos + 1 ==> pos < s.Visible()
    ensures s.seqs[SlotOf(pos, s.size)] == pos ==> pos == s.Visible()
    decreases s.enq - pos
  {
    if InWindow(s, pos) {
      assert CellOk(s, pos);
    } else {
      Alias(pos, s.size);
      OlderAlias(s, pos, pos + s.size);
    }
  }

  lemma Alias(pos: nat, size: nat)
    requires size > 0
    ensures SlotOf(pos + size, size) == SlotOf(pos, size)
  {
  }

  lemma {:induction false} OlderAlias(s: State, pos: nat, p: nat)
    requires CellsOk(s) && pos + s.size <= p < s.enq && SlotOf(p, s.size) == SlotOf(pos, s.size)
    ensures s.seqs[SlotOf(pos, s.size)] >= pos + s.size
    decreases s.enq - p
  {
    if InWindow(s, p) {
      assert CellOk(s, p);
    } else {
      Alias(p, s.size);
      OlderAlias(s, pos, p + s.size);
    }
  }

  // ---- every step keeps the invariant ----

  lemma ClaimCells(s: State)
    requires Inv(s) && Possible(s, ClaimCell)
    ensures CellsOk(Apply(s, ClaimCell))
  {
    var s' := Apply(s, ClaimCell);
    NextCell(s);
    forall p: nat | InWindow(s', p) ensures CellOk(s', p) {
      if p < s.enq {
        assert InWindow(s, p) && CellOk(s, p);
      }
    }
    forall j: nat | j < s.size ensures Fresh(s', j) {
      assert Fresh(s, j);
    }
  }

  lemma WriteCells(s: State, step: Step)
    requires Inv(s) && Possible(s, step) && (step.WriteCell? || step.ReleaseCell?)
    ensures CellsOk(Apply(s, step))
  {
    var s' := Apply(s, step);
    assert InWindow(s, s.prod.pos) && CellOk(s, s.prod.pos);
    forall p: nat | InWindow(s', p) ensures CellOk(s', p) {
      assert InWindow(s, p) && CellOk(s, p);
      if p != s.prod.pos {
        WindowCells(s, p, s.prod.pos);
      }
    }
    forall j: nat | j < s.size ensures Fresh(s', j) {
      assert Fresh(s, j);
    }
  }

  lemma QuietCells(s: State, step: Step)
    requires CellsOk(s) && Possible(s, step)
    requires !step.ClaimCell? && !step.WriteCell? && !step.ReleaseCell? && !step.Win? && !step.Release?
    ensures CellsOk(Apply(s, step))
  {
    var s' := Apply(s, step);
    forall p: nat | InWindow(s', p) ensures CellOk(s', p) {
      assert InWindow(s, p) && CellOk(s, p);
    }
    forall j: nat | j < s.size ensures Fresh(s', j) {
      assert Fresh(s, j);
    }
  }

  lemma WinCells(s: State, t: nat)
    requires Inv(s) && Possible(s, Win(t))
    ensures CellsOk(Apply(s, Win(t)))
  {
    var s' := Apply(s, Win(t));
    assert ConsumerOk(s, t);
    forall p: nat | InWindow(s', p) ensures CellOk(s', p) {
      assert InWindow(s, p) && CellOk(s, p);
    }
    forall j: nat | j < s.size ensures Fresh(s', j) {
      assert Fresh(s, j);
    }
  }

  lemma ReleaseCells(s: State, t: nat)
    requires Inv(s) && Possible(s, Release(t))
    ensures CellsOk(Apply(s, Release(t)))
  {
    var s' := Apply(s, Release(t));
    var pos := s.cons[t].pos;
    assert ConsumerOk(s, t);
    assert InWindow(s, pos);
    forall p: nat | InWindow(s', p) ensures CellOk(s', p) {
      assert InWindow(s, p) && CellOk(s, p);
      if p != pos {
        WindowCells(s, p, pos);
      }
    }
    forall j: nat | j < s.size ensures Fresh(s', j) {
      assert Fresh(s, j);
      if s.enq <= j {
        SmallSlots(s, pos, j);
      }
    }
  }

  lemma SmallSlots(s: State, pos: nat, j: nat)
    requires s.Shape() && pos < s.enq <= j < s.size
    ensures SlotOf(pos, s.size) != j
  {
  }

  lemma StepCells(s: State, step: Step)
    requires Inv(s) && Possible(s, step)
    ensures CellsOk(Apply(s, step))
  {
    match step
    case ClaimCell => ClaimCells(s);
    case WriteCell => WriteCells(s, step);
    case ReleaseCell => WriteCells(s, step);
    case Win(t) => WinCells(s, t);
    case Release(t) => ReleaseCells(s, t);
    case _ => QuietCells(s, step);
  }

  lemma StepProducer(s: State, step: Step)
    requires Inv(s) && Possible(s, step)
    ensures ProducerOk(Apply(s, step))
  {
    if step.LoadCell? {
      NextCell(s);
    }
    if step.Release? && s.prod.Looked? {
      assert ConsumerOk(s, step.t);
      NextCell(s);
      if s.seqs[SlotOf(s.enq, s.size)] == s.enq && SlotOf(s.cons[step.t].pos, s.size) == SlotOf(s.enq, s.size) {
        ReleasedIsNotNext(s, s.cons[step.t].pos);
      }
    }
  }

  /** A busy position does not share the cell that is free for the next enqueue. */
  lemma ReleasedIsNotNext(s: State, pos: nat)
    requires CellsOk(s) && pos < s.deq && s.uses[pos].Busy? && !s.prod.Claimed? && !s.prod.Filled?
    requires s.seqs[SlotOf(s.enq, s.size)] == s.enq
    ensures SlotOf(pos, s.size) != SlotOf(s.enq, s.size)
  {
    NextCell(s);
    assert InWindow(s, pos);
    if pos + s.size != s.enq {
      SlotsDiffer(pos, s.enq, s.size);
    }
  }

  /** Steps that neither take a cell from the queue nor give one back. */
  lemma QuietConsumer(s: State, step: Step, t: nat)
    requires s.Shape() && Possible(s, step) && t < |s.cons| && ConsumerOk(s, t)
    requires !step.Peek? && !step.CopyOut? && !step.Release?
    requires s.deq <= s.Visible() && ProducerOk(s)
    ensures ConsumerOk(Apply(s, step), t)
  {
  }

  lemma ReleaseConsumer(s: State, u: nat, t: nat)
    requires s.Shape() && Possible(s, Release(u)) && t < |s.cons| && ConsumerOk(s, t) && ConsumerOk(s, u)
    ensures ConsumerOk(Apply(s, Release(u)), t)
  {
  }

  lemma StepConsumer(s: State, step: Step, t: nat)
    requires Inv(s) && Possible(s, step) && t < |s.cons|
    ensures ConsumerOk(Apply(s, step), t)
  {
    assert ConsumerOk(s, t);
    match step {
      case Peek(u) =>
        assert ConsumerOk(s, u);
        PeekedCell(s, s.cons[u].pos);
      case CopyOut(u) =>
        assert ConsumerOk(s, u);
        assert InWindow(s, s.cons[u].pos) && CellOk(s, s.cons[u].pos);
      case Release(u) =>
        assert ConsumerOk(s, u);
        ReleaseConsumer(s, u, t);
      case _ => QuietConsumer(s, step, t);
    }
  }

  lemma StepUse(s: State, step: Step, p: nat)
    requires Inv(s) && Possible(s, step) && p < Apply(s, step).deq
    ensures UseOk(Apply(s, step), p)
  {
    if p < s.deq {
      assert UseOk(s, p);
    }
  }

  lemma StepKeepsInv(s: State, step: Step)
    requires Inv(s) && Possible(s, step)
    ensures Inv(Apply(s, step))
  {
    var s' := Apply(s, step);
    StepCells(s, step);
    StepProducer(s, step);
    forall t: nat | t < |s.cons| ensures ConsumerOk(s', t) {
      StepConsumer(s, step, t);
    }
    forall p: nat | p < s'.deq ensures UseOk(s', p) {
      StepUse(s, step, p);
    }
  }
}
