/** The ring over whole runs: what it delivers, what it reclaims, and that it cannot run dry. */
module RingTheorems {
  import opened Broadcast
  import opened Pigeonhole
  import opened Ring
  import opened RingSafety

  ghost predicate Init(s: State) {
    && s.Shape() && s.me < |s.heads| && |s.heads| >= 2
    && s.free == seq<nat>(s.size, b => b) && s.hist == [] && s.freed == 0
    && s.bound == s.size && s.gcMtx == Nobody
    && (forall j: nat | j < s.size :: s.pub[j] == PubEntry(j, 0, false) && s.place[j] == InFreelist)
    && (forall t: nat | t < |s.pcs| :: s.pcs[t] == Wanting)
    && (forall n: nat | n < |s.heads| :: s.heads[n] == 0 && s.readers[n] == Looking && s.delivered[n] == [])
  }

  lemma InitInv(s: State)
    requires Init(s)
    ensures Inv(s)
  {
    forall b: nat | b < s.size ensures PlaceOk(s, b) {
      assert s.free[b] == b;
    }
    assert forall t: nat | t < |s.pcs| :: CollectorOk(s, t);
  }

  ghost predicate Moves(s: State, step: Step, s': State) {
    s.Shape() && Possible(s, step) && s' == Apply(s, step)
  }

  ghost predicate MovesAt(states: seq<State>, steps: seq<Step>, k: nat)
    requires |states| == |steps| + 1 && k < |steps|
  {
    Moves(states[k], steps[k], states[k + 1])
  }

  ghost predicate IsRun(states: seq<State>, steps: seq<Step>) {
    && |states| == |steps| + 1
    && Init(states[0])
    && forall k: nat | k < |steps| :: MovesAt(states, steps, k)
  }

  lemma {:induction false} RunInv(states: seq<State>, steps: seq<Step>, k: nat)
    requires IsRun(states, steps) && k < |states|
    ensures Inv(states[k])
  {
    if k == 0 {
      InitInv(states[0]);
    } else {
      RunInv(states, steps, k - 1);
      assert MovesAt(states, steps, k - 1);
      StepKeepsInv(states[k - 1], steps[k - 1]);
    }
  }

  /** The logs produced so far, in the order of their tail indices. */
  ghost function Produced(s: State): seq<Log<seq<Item>>> {
    seq(|s.hist|, k requires 0 <= k < |s.hist| => s.hist[k].log)
  }

  /** Exactly once and in order: what a node has consumed is the beginning of what was produced. */
  lemma DeliveredIsProduced(states: seq<State>, steps: seq<Step>, k: nat, n: nat)
    requires IsRun(states, steps) && k < |states|
    requires n < |states[k].heads| && n != states[k].me && n < |states[k].delivered|
    ensures states[k].heads[n] <= |states[k].hist|
    ensures states[k].delivered[n] == Produced(states[k])[..states[k].heads[n]]
  {
    RunInv(states, steps, k);
    assert ReaderOk(states[k], n);
  }

  // ---- the same told from the steps alone ----

  /** What producer t has written since it last reset a buffer. */
  ghost function Written(steps: seq<Step>, t: nat): seq<Item> {
    if steps == [] then []
    else
      var before, step := steps[..|steps| - 1], steps[|steps| - 1];
      if !(step.Produce? && step.t == t) then Written(before, t)
      else if step.a.Reset? then []
      else if step.a.Write? then Written(before, t) + [step.a.e]
      else Written(before, t)
  }

  /** The logs in the order in which their tail indices were taken: each holds what its producer had written. */
  ghost function Claims(steps: seq<Step>): seq<Log<seq<Item>>> {
    if steps == [] then []
    else
      var before, step := steps[..|steps| - 1], steps[|steps| - 1];
      Claims(before) + if step.Produce? && step.a.Claim? then [Log(Written(before, step.t), step.a.rel)] else []
  }

  /** How many logs node n has consumed. */
  ghost function Consumes(steps: seq<Step>, n: nat): nat {
    if steps == [] then 0
    else
      Consumes(steps[..|steps| - 1], n) + if steps[|steps| - 1] == Read(n, Consume) then 1 else 0
  }

  ghost predicate BufferIs(s: State, t: nat, items: seq<Item>)
    requires s.Shape() && t < |s.pcs|
  {
    s.pcs[t].Writing? ==> s.pcs[t].b < s.size && s.bufs[s.pcs[t].b] == items
  }

  /** Nobody writes to a buffer that another producer is writing. */
  lemma OtherBuffer(s: State, t: nat, a: Action, u: nat, items: seq<Item>)
    requires Conservation(s) && t < |s.pcs| && ProducePossible(s, s.pcs[t], a) && u < |s.pcs| && u != t
    requires BufferIs(s, u, items)
    ensures s.Shape() && ApplyProduce(s, t, a).Shape() && BufferIs(ApplyProduce(s, t, a), u, items)
  {
    if s.pcs[u].Writing? && (a.Reset? || a.Write?) {
      assert HeldBuffer(s.pcs[t]) == Buffer(s.pcs[t].b) && HeldBuffer(s.pcs[u]) == Buffer(s.pcs[u].b);
    }
  }

  lemma OwnBuffer(s: State, t: nat, a: Action, items: seq<Item>)
    requires s.Shape() && t < |s.pcs| && ProducePossible(s, s.pcs[t], a) && BufferIs(s, t, items)
    ensures var s' := ApplyProduce(s, t, a);
            && s'.Shape() && |s'.pcs| == |s.pcs|
            && BufferIs(s', t, if a.Reset? then [] else if a.Write? then items + [a.e] else items)
  {
  }

  lemma StepBuffer(s: State, step: Step, t: nat, items: seq<Item>, steps: seq<Step>)
    requires Conservation(s) && Possible(s, step) && t < |s.pcs| && BufferIs(s, t, items) && items == Written(steps, t)
    ensures var s' := Apply(s, step); s'.Shape() && t < |s'.pcs| && BufferIs(s', t, Written(steps + [step], t))
  {
    assert (steps + [step])[..|steps|] == steps;
    match step
    case Produce(u, a) =>
      if u == t {
        OwnBuffer(s, t, a, items);
      } else {
        OtherBuffer(s, u, a, t, items);
      }
    case Read(n, r) =>
  }

  /** Only a claim adds a log, and it takes the content of the buffer. */
  lemma StepHist(s: State, step: Step)
    requires s.Shape() && Possible(s, step)
    ensures var s' := Apply(s, step);
            && s'.Shape()
            && Produced(s') == Produced(s) + if step.Produce? && step.a.Claim?
                                             then [Log(s.bufs[s.pcs[step.t].b], step.a.rel)] else []
  {
    match step
    case Produce(t, a) =>
      ProduceFrame(s, t, a);
    case Read(n, r) =>
  }

  lemma {:induction false} RunBuffers(states: seq<State>, steps: seq<Step>, k: nat, t: nat)
    requires IsRun(states, steps) && k < |states| && t < |states[0].pcs|
    ensures Inv(states[k]) && t < |states[k].pcs| && BufferIs(states[k], t, Written(steps[..k], t))
  {
    RunInv(states, steps, k);
    if k > 0 {
      RunBuffers(states, steps, k - 1, t);
      assert MovesAt(states, steps, k - 1);
      assert steps[..k] == steps[..k - 1] + [steps[k - 1]];
      StepBuffer(states[k - 1], steps[k - 1], t, Written(steps[..k - 1], t), steps[..k - 1]);
    }
  }

  lemma {:induction false} SameProducers(states: seq<State>, steps: seq<Step>, k: nat)
    requires IsRun(states, steps) && k < |states|
    ensures |states[k].pcs| == |states[0].pcs|
  {
    if k > 0 {
      SameProducers(states, steps, k - 1);
      assert MovesAt(states, steps, k - 1);
      if steps[k - 1].Produce? {
        StepCount(states[k - 1], steps[k - 1].t, steps[k - 1].a);
      }
    }
  }

  lemma StepCount(s: State, t: nat, a: Action)
    requires s.Shape() && t < |s.pcs| && ProducePossible(s, s.pcs[t], a)
    ensures |ApplyProduce(s, t, a).pcs| == |s.pcs|
  {
  }

  /** A log holds exactly what its producer wrote between resetting the buffer and claiming the index. */
  lemma {:induction false} ProducedIsWritten(states: seq<State>, steps: seq<Step>, k: nat)
    requires IsRun(states, steps) && k < |states|
    ensures Produced(states[k]) == Claims(steps[..k])
  {
    if k > 0 {
      ProducedIsWritten(states, steps, k - 1);
      assert MovesAt(states, steps, k - 1);
      assert steps[..k][..k - 1] == steps[..k - 1];
      StepHist(states[k - 1], steps[k - 1]);
      if steps[k - 1].Produce? && steps[k - 1].a.Claim? {
        SameProducers(states, steps, k - 1);
        RunBuffers(states, steps, k - 1, steps[k - 1].t);
      }
    }
  }

  lemma {:induction false} HeadsAreConsumes(states: seq<State>, steps: seq<Step>, k: nat, n: nat)
    requires IsRun(states, steps) && k < |states| && n < |states[0].heads|
    ensures |states[k].heads| == |states[0].heads| && states[k].me == states[0].me
    ensures states[k].heads[n] == Consumes(steps[..k], n)
  {
    if k > 0 {
      HeadsAreConsumes(states, steps, k - 1, n);
      assert MovesAt(states, steps, k - 1);
      assert steps[..k][..k - 1] == steps[..k - 1];
      StepHeads(states[k - 1], steps[k - 1], n);
    }
  }

  lemma StepHeads(s: State, step: Step, n: nat)
    requires s.Shape() && Possible(s, step) && n < |s.heads|
    ensures var s' := Apply(s, step);
            && |s'.heads| == |s.heads| && s'.me == s.me
            && s'.heads[n] == s.heads[n] + if step == Read(n, Consume) then 1 else 0
  {
    match step
    case Produce(t, a) => ProduceFrame(s, t, a);
    case Read(m, r) =>
  }

  /** Nothing written is lost on the way: what a node has received is the first logs of the claim order, each
      with the items its producer wrote into it, as many as the node has consumed. */
  lemma DeliveredIsWritten(states: seq<State>, steps: seq<Step>, k: nat, n: nat)
    requires IsRun(states, steps) && k < |states| && n < |states[0].heads| && n != states[0].me
    ensures n < |states[k].delivered| && Consumes(steps[..k], n) <= |Claims(steps[..k])|
    ensures states[k].delivered[n] == Claims(steps[..k])[..Consumes(steps[..k], n)]
  {
    RunInv(states, steps, k);
    HeadsAreConsumes(states, steps, k, n);
    ProducedIsWritten(states, steps, k);
    DeliveredIsProduced(states, steps, k, n);
  }

  // ---- refinement of the broadcast sequence ----

  /** Once produced, a log keeps its index, its content and its commitment. */
  lemma StepRefinesBroadcast(s: State, step: Step)
    requires Inv(s) && Possible(s, step)
    ensures var s', r := Apply(s, step), s.Slots();
            var r' := s'.Slots();
            match step {
              case Produce(t, Claim(rel)) => r' == r + [Slot.Reserved] && s'.heads == s.heads
              case Produce(t, StoreIdx) =>
                var k := s.pcs[t].k;
                && k < |r| && r[k].Reserved? && s'.heads == s.heads
                && r' == r[k := Committed(s.hist[k].log)] && s.hist[k].log.rel == s.pcs[t].rel
              case Produce(t, _) => r' == r && s'.heads == s.heads
              case Read(n, Consume) =>
                && r' == r && s.heads[n] < |r| && r[s.heads[n]].Committed?
                && s'.heads == s.heads[n := s.heads[n] + 1]
                && s'.delivered[n] == s.delivered[n] + [r[s.heads[n]].log]
              case Read(n, _) => r' == r && s'.heads == s.heads
            }
  {
    match step
    case Produce(t, a) => assert OpenOk(s, t);
    case Read(n, a) =>
      assert ReaderOk(s, n);
      if a.Consume? {
        assert s.readers[n].got == s.hist[s.heads[n]].log.items;
      }
  }

  /** take_head answers exactly whether the slot at the head is committed. */
  lemma TakeHeadIsExact(s: State, n: nat)
    requires Inv(s) && n < |s.heads| && n != s.me
    ensures s.pub[SlotOf(s.heads[n], s.size)].idx == s.heads[n] + 1 <==>
            s.heads[n] < |s.hist| && s.hist[s.heads[n]].done
  {
    assert ReaderOk(s, n);
    assert IdxOk(s, SlotOf(s.heads[n], s.size));
    if s.heads[n] < |s.hist| {
      assert RecOk(s, s.heads[n]);
    }
  }

  // ---- reclamation ----

  /** No buffer that is being reset or written is one that a subscriber has yet to read. */
  lemma WritersAndReadersApart(s: State, t: nat, n: nat, k: nat)
    requires Inv(s) && t < |s.pcs| && (s.pcs[t].Fresh? || s.pcs[t].Writing?)
    requires n < |s.heads| && n != s.me && s.heads[n] <= k < |s.hist|
    ensures s.hist[k].buf != s.pcs[t].b
    ensures s.readers[n].Reading? ==> s.readers[n].b != s.pcs[t].b
  {
    assert ReaderOk(s, n);
    assert HeldBuffer(s.pcs[t]) == Buffer(s.pcs[t].b);
    assert s.place[s.hist[k].buf] == At(k);
    assert s.place[s.hist[s.heads[n]].buf] == At(s.heads[n]);
  }

  /** The assertion of perform_gc, and the bounds behind it: nothing is freed that a subscriber still needs,
      and the window of live logs always fits the ring. */
  lemma CollectionIsSafe(s: State, t: nat)
    requires Inv(s) && t < |s.pcs|
    ensures |s.hist| <= s.freed + s.size
    ensures forall n: nat | n < |s.heads| && n != s.me :: s.freed <= s.heads[n]
    ensures s.pcs[t].Scanning? || s.pcs[t].Freeing? || s.pcs[t].Fetched? ==> s.bound <= s.pcs[t].newB
    ensures s.pcs[t].Fetched? ==> s.freed < |s.hist| && s.pcs[t].b == s.hist[s.freed].buf && s.hist[s.freed].done
  {
    assert CollectorOk(s, t);
    forall n: nat | n < |s.heads| && n != s.me ensures s.freed <= s.heads[n] {
      assert ReaderOk(s, n);
    }
    if s.pcs[t].Fetched? {
      FreedIsDone(s, t);
    }
  }

  /** 32-bit indices never wrap, in any value the code computes, while two rounds are left. */
  lemma NoWrap(s: State, t: nat, n: nat)
    requires Inv(s) && t < |s.pcs| && n < |s.heads| && n != s.me
    requires s.tail + 2 * s.size < 0x1_0000_0000
    ensures s.bound + s.size < 0x1_0000_0000
    ensures s.heads[n] + s.size < 0x1_0000_0000
    ensures s.pcs[t].Scanning? || s.pcs[t].Freeing? || s.pcs[t].Fetched? ==> s.pcs[t].newB < 0x1_0000_0000
    ensures s.pcs[t].Freeing? || s.pcs[t].Fetched? ==> s.pcs[t].i < 0x1_0000_0000
  {
    assert ReaderOk(s, n) && CollectorOk(s, t);
    if s.gcMtx.By? {
      assert CollectorOk(s, s.gcMtx.t);
      assert HoldsGc(s.pcs[s.gcMtx.t]) <==> s.gcMtx == By(s.gcMtx.t);
    }
  }

  // ---- no starvation ----

  ghost predicate Unconsumed(s: State, n: nat)
    requires s.Shape() && n < |s.heads|
  {
    s.heads[n] < |s.hist| && s.hist[s.heads[n]].done
  }

  /** The bound a collection would store, given where the subscribers are. */
  ghost function Target(s: State, n: nat): nat
    requires s.Shape() && n <= |s.heads|
  {
    if n == 0 then s.bound + s.size
    else
      var b := Target(s, n - 1);
      if n - 1 != s.me && s.heads[n - 1] + s.size < b then s.heads[n - 1] + s.size else b
  }

  lemma {:induction false} TargetAbove(s: State, n: nat, b: nat)
    requires s.Shape() && n <= |s.heads| && b < s.bound + s.size
    requires forall m: nat | m < n && m != s.me :: b < s.heads[m] + s.size
    ensures b < Target(s, n)
  {
    if n > 0 {
      TargetAbove(s, n - 1, b);
    }
  }

  /** With an empty freelist and nothing held, every buffer is published. */
  lemma AllPublished(s: State)
    requires Conservation(s) && s.free == [] && forall t: nat | t < |s.pcs| :: HeldBuffer(s.pcs[t]).NoBuffer?
    ensures |s.hist| == s.freed + s.size
  {
    forall b: nat | b < s.size ensures b in Window(s) {
      assert PlaceOk(s, b);
      var k := s.place[b].k;
      assert Window(s)[k - s.freed] == b;
    }
    CoveringIsLong(Window(s), s.size);
  }

  /** With the freelist empty and no producer holding a buffer or an uncommitted log, a collection that saw the
      subscribers where they are would store a larger bound, or some subscriber has a committed log to consume. */
  lemma RoomOrWork(s: State)
    requires Inv(s) && s.free == [] && s.bound == s.freed + s.size
    requires forall t: nat | t < |s.pcs| :: HeldBuffer(s.pcs[t]).NoBuffer? && !Open(s.pcs[t])
    ensures s.bound < Target(s, |s.heads|) || exists n: nat | n < |s.heads| && n != s.me :: Unconsumed(s, n)
  {
    AllPublished(s);
    if n: nat :| n < |s.heads| && n != s.me && s.heads[n] == s.freed {
      assert ReaderOk(s, n) && RecOk(s, s.freed);
      assert Unconsumed(s, n);
    } else {
      forall m: nat | m < |s.heads| && m != s.me ensures s.bound < s.heads[m] + s.size {
        assert ReaderOk(s, m);
      }
      TargetAbove(s, |s.heads|, s.bound);
    }
  }

  // ---- the collector reaches the target, whatever happens meanwhile ----

  ghost predicate InGcLoops(pc: Pc) {
    pc.Scanning? || pc.Freeing? || pc.Fetched?
  }

  /** The collection that began in state b, s being a later state: it has not stored its bound yet, and what
      it has computed is at least what the heads of state b allowed. */
  ghost predicate Reaches(b: State, s: State, t: nat)
    requires b.Shape() && s.Shape() && |s.heads| == |b.heads| && t < |s.pcs|
  {
    && s.size == b.size && s.me == b.me && s.bound == b.bound
    && (forall n: nat | n < |b.heads| :: b.heads[n] <= s.heads[n])
    && match s.pcs[t] {
         case Scanning(n, newB) => n <= |b.heads| && Target(b, n) <= newB
         case Freeing(i, newB) => Target(b, |b.heads|) <= newB
         case Fetched(i, newB, c) => Target(b, |b.heads|) <= newB
         case _ => true
       }
  }

  lemma OtherReaches(b: State, s: State, step: Step, t: nat)
    requires b.Shape() && s.Shape() && Possible(s, step) && t < |s.pcs| && InGcLoops(s.pcs[t])
    requires step.Produce? ==> step.t != t && !HoldsGc(s.pcs[step.t])
    requires |s.heads| == |b.heads| && Reaches(b, s, t)
    ensures var s' := Apply(s, step);
            s'.Shape() && |s'.heads| == |b.heads| && |s'.pcs| == |s.pcs| && Reaches(b, s', t)
  {
    match step
    case Produce(u, a) => NonHolderFrame(s, u, a);
    case Read(n, r) =>
  }

  lemma ScanReaches(b: State, s: State, t: nat)
    requires b.Shape() && s.Shape() && |s.heads| == |b.heads| && t < |s.pcs| && Reaches(b, s, t)
    requires s.pcs[t].Scanning? && s.pcs[t].n < |s.heads|
    ensures var s' := ApplyProduce(s, t, ScanNode); s'.Shape() && Reaches(b, s', t)
  {
    var n := s.pcs[t].n;
    assert Target(b, n + 1) <= Target(b, n);
    assert n != b.me ==> Target(b, n + 1) <= b.heads[n] + b.size;
  }

  lemma OwnReaches(b: State, s: State, t: nat, a: Action)
    requires b.Shape() && s.Shape() && t < |s.pcs| && ProducePossible(s, s.pcs[t], a) && InGcLoops(s.pcs[t])
    requires |s.heads| == |b.heads| && Reaches(b, s, t) && !a.EndGc?
    ensures var s' := ApplyProduce(s, t, a); s'.Shape() && |s'.heads| == |b.heads| && Reaches(b, s', t)
  {
    if a.ScanNode? {
      ScanReaches(b, s, t);
    }
  }

  lemma MoveReaches(b: State, s: State, step: Step, s': State, t: nat)
    requires b.Shape() && GcOk(s) && Moves(s, step, s') && t < |s.pcs| && InGcLoops(s.pcs[t])
    requires |s.heads| == |b.heads| && Reaches(b, s, t) && step != Produce(t, EndGc)
    ensures s'.Shape() && |s'.heads| == |b.heads| && t < |s'.pcs| && Reaches(b, s', t)
  {
    assert HoldsGc(s.pcs[t]) <==> s.gcMtx == By(t);
    if step.Produce? && step.t == t {
      OwnReaches(b, s, t, step.a);
    } else {
      assert step.Produce? ==> (HoldsGc(s.pcs[step.t]) <==> s.gcMtx == By(step.t));
      OtherReaches(b, s, step, t);
    }
  }

  lemma BeginReaches(s: State, t: nat, s': State)
    requires Moves(s, Produce(t, TrySecond), s') && t < |s'.pcs| && InGcLoops(s'.pcs[t])
    ensures s'.Shape() && |s'.heads| == |s.heads| && Reaches(s, s', t)
  {
    assert Target(s, 0) == s.bound + s.size;
  }

  ghost predicate CollectsAt(states: seq<State>, steps: seq<Step>, t: nat, x: nat)
    requires x < |states| && x < |steps|
  {
    t < |states[x].pcs| && InGcLoops(states[x].pcs[t]) && steps[x] != Produce(t, EndGc)
  }

  /** Thread t collects: its second dequeue fails in state b, and it stores its bound in step e. */
  ghost predicate Collects(states: seq<State>, steps: seq<Step>, b: nat, e: nat, t: nat) {
    && IsRun(states, steps) && b < e < |steps|
    && steps[b] == Produce(t, TrySecond) && steps[e] == Produce(t, EndGc)
    && (forall x: nat | b < x < e :: CollectsAt(states, steps, t, x))
    && t < |states[b + 1].pcs| && InGcLoops(states[b + 1].pcs[t])
  }

  ghost predicate ReachesAt(states: seq<State>, b: nat, k: nat, t: nat)
    requires b < |states| && k < |states|
  {
    && states[b].Shape() && states[k].Shape() && |states[k].heads| == |states[b].heads|
    && t < |states[k].pcs| && Reaches(states[b], states[k], t)
  }

  lemma ReachesNext(states: seq<State>, steps: seq<Step>, b: nat, e: nat, t: nat, k: nat)
    requires Collects(states, steps, b, e, t) && b < k < e && ReachesAt(states, b, k, t)
    ensures ReachesAt(states, b, k + 1, t)
  {
    assert MovesAt(states, steps, k) && CollectsAt(states, steps, t, k);
    RunInv(states, steps, k);
    MoveReaches(states[b], states[k], steps[k], states[k + 1], t);
  }

  lemma {:induction false} CollectionReaches(
      states: seq<State>, steps: seq<Step>, b: nat, e: nat, t: nat, k: nat)
    requires Collects(states, steps, b, e, t) && b < k <= e
    ensures ReachesAt(states, b, k, t)
    decreases k
  {
    if k == b + 1 {
      assert MovesAt(states, steps, b);
      BeginReaches(states[b], t, states[k]);
    } else {
      CollectionReaches(states, steps, b, e, t, k - 1);
      ReachesNext(states, steps, b, e, t, k - 1);
    }
  }

  /** The bound that a collection stores is at least what the heads allowed when it began, and it has freed
      every buffer up to it. */
  lemma CollectionFrees(states: seq<State>, steps: seq<Step>, b: nat, e: nat, t: nat)
    requires Collects(states, steps, b, e, t)
    ensures Inv(states[b]) && states[e + 1].Shape()
    ensures states[e + 1].bound >= Target(states[b], |states[b].heads|)
    ensures states[e + 1].freed - states[b].freed == states[e + 1].bound - states[b].bound
  {
    RunInv(states, steps, b);
    RunInv(states, steps, e);
    RunInv(states, steps, e + 1);
    CollectionReaches(states, steps, b, e, t, e);
    assert MovesAt(states, steps, b) && MovesAt(states, steps, e);
    assert CollectorOk(states[b], t) && CollectorOk(states[e + 1], t);
    assert states[e].size == states[b].size && states[e + 1].size == states[e].size;
  }

  /**
   No starvation deadlock: if a producer finds the freelist empty while no producer holds a buffer or an
   uncommitted log, the collection it then runs frees a buffer, or some subscriber had a committed log to
   consume when it began.
   */
  lemma NeverStuck(states: seq<State>, steps: seq<Step>, b: nat, e: nat, t: nat)
    requires Collects(states, steps, b, e, t)
    requires forall u: nat | u < |states[b].pcs| :: HeldBuffer(states[b].pcs[u]).NoBuffer? && !Open(states[b].pcs[u])
    ensures Inv(states[b])
    ensures states[b].freed < states[e + 1].freed
            || exists n: nat | n < |states[b].heads| && n != states[b].me :: Unconsumed(states[b], n)
  {
    CollectionFrees(states, steps, b, e, t);
    assert MovesAt(states, steps, b);
    assert CollectorOk(states[b], t);
    RoomOrWork(states[b]);
  }
}
