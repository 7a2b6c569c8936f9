/**
 What one node does with the logs of the others while it holds its head mutex: a batch of the cache agent,
 help_consume, and thread_acquire around it.  The Protocol modules cover the interleavings.
 */
module NodeConsumer {
  import opened Broadcast
  import opened Clocks
  import opened Decode
  import opened LineLogs
  import opened VectorClocks

  type Ring = seq<Slot<seq<bv64>>>

  const LOG_MAX_BATCH: nat := 100

  /** What is left of a set of cached hardware lines after a log was processed. */
  ghost function AfterLog(cached: set<nat>, items: seq<bv64>): set<nat> {
    if Drops(items) then {} else cached - (set a | a in LogLines(items))
  }

  /** ... and after the logs from position h up to position stop. */
  ghost function AfterLogs(cached: set<nat>, r: Ring, h: nat, stop: nat): set<nat>
    requires h <= stop <= |r|
    decreases stop
  {
    if h == stop then cached
    else
      var c := AfterLogs(cached, r, h, stop - 1);
      if r[stop - 1].Committed? then AfterLog(c, r[stop - 1].log.items) else c
  }

  /** No line of a processed log stays cached, and nothing is added. */
  lemma {:induction false} NothingStaleIsLeft(cached: set<nat>, r: Ring, h: nat, stop: nat, k: nat)
    requires h <= k < stop <= |r| && r[k].Committed?
    ensures AfterLogs(cached, r, h, stop) <= cached
    ensures forall a | a in LogLines(r[k].log.items) :: a !in AfterLogs(cached, r, h, stop)
    decreases stop
  {
    OnlyShrinks(cached, r, h, stop - 1);
    if k < stop - 1 {
      NothingStaleIsLeft(cached, r, h, stop - 1, k);
    }
  }

  /** When the logs were made from tables, a consumed log takes away its own lines and nothing else. */
  lemma {:induction false} ConsumesExactly(cached: set<nat>, r: Ring, h: nat, stop: nat, a: nat)
    requires h <= stop <= |r|
    requires forall k: nat | h <= k < stop && r[k].Committed? :: MaskLog(r[k].log.items)
    ensures a in AfterLogs(cached, r, h, stop) <==>
            a in cached && forall k: nat | h <= k < stop && r[k].Committed? :: a !in LogLines(r[k].log.items)
    decreases stop
  {
    if h < stop {
      ConsumesExactly(cached, r, h, stop - 1, a);
      if r[stop - 1].Committed? {
        NeverDrops(r[stop - 1].log.items);
      }
    }
  }

  lemma {:induction false} OnlyShrinks(cached: set<nat>, r: Ring, h: nat, stop: nat)
    requires h <= stop <= |r|
    ensures AfterLogs(cached, r, h, stop) <= cached
    decreases stop
  {
    if h < stop {
      OnlyShrinks(cached, r, h, stop - 1);
    }
  }

  /** All slots before position `stop` are committed. */
  ghost predicate CommittedBelow(r: Ring, stop: nat) {
    stop <= |r| && forall k: nat | k < stop :: r[k].Committed?
  }

  /** A head at which the clock shows less than a release index has not reached that index. */
  lemma HeadBelow(r: Ring, h: nat, target: nat)
    requires h <= |r| && target <= |r| && IsReleaseIndex(r, target) && LastRelease(r, h) < target
    ensures h < target
  {
    LastReleaseIsLargest(r, h);
  }

  /** Clock value v stands for a release log of ring r, and everything up to it is committed. */
  ghost predicate Genuine(r: Ring, v: nat) {
    CommittedBelow(r, v) && IsReleaseIndex(r, v)
  }

  // ---- what the cache owes to the logs consumed ----

  ghost predicate InLog(r: Ring, k: nat, a: nat) {
    k < |r| && r[k].Committed? && a in LogLines(r[k].log.items)
  }

  ghost predicate InSomeLog(r: Ring, h: nat, stop: nat, a: nat) {
    exists k: nat :: h <= k < stop && InLog(r, k, a)
  }

  /** Address a is a line of log k of ring i, which lies between heads h0 and h1; `me` is the consuming node. */
  ghost predicate NamedBy(rings: seq<Ring>, me: nat, h0: seq<nat>, h1: seq<nat>, i: nat, k: nat, a: nat) {
    i < |rings| == |h0| == |h1| && i != me && h0[i] <= k < h1[i] && InLog(rings[i], k, a)
  }

  ghost predicate Named(rings: seq<Ring>, me: nat, h0: seq<nat>, h1: seq<nat>, a: nat) {
    exists i: nat, k: nat :: NamedBy(rings, me, h0, h1, i, k, a)
  }

  ghost predicate MaskLogs(rings: seq<Ring>, me: nat, h0: seq<nat>, h1: seq<nat>) {
    forall i: nat, k: nat | i < |rings| == |h0| == |h1| && i != me && h0[i] <= k < h1[i] && k < |rings[i]| ::
      rings[i][k].Committed? ==> MaskLog(rings[i][k].log.items)
  }

  /** From c0 to c1 the cache has lost every line that the logs between h0 and h1 name, and nothing else if those
      logs were made from tables. */
  ghost predicate Applied(rings: seq<Ring>, me: nat, h0: seq<nat>, h1: seq<nat>, c0: set<nat>, c1: set<nat>) {
    && c1 <= c0
    && (forall a | a in c1 :: !Named(rings, me, h0, h1, a))
    && (MaskLogs(rings, me, h0, h1) ==> forall a | a in c0 && !Named(rings, me, h0, h1, a) :: a in c1)
  }

  ghost predicate Ahead(h0: seq<nat>, h1: seq<nat>) {
    |h0| == |h1| && forall i: nat | i < |h0| :: h0[i] <= h1[i]
  }

  lemma NamedSplits(rings: seq<Ring>, me: nat, h0: seq<nat>, h1: seq<nat>, h2: seq<nat>, a: nat)
    requires |h0| == |rings| && Ahead(h0, h1) && Ahead(h1, h2)
    ensures Named(rings, me, h0, h2, a) <==> Named(rings, me, h0, h1, a) || Named(rings, me, h1, h2, a)
  {
    if i: nat, k: nat :| NamedBy(rings, me, h0, h2, i, k, a) {
      assert NamedBy(rings, me, h0, h1, i, k, a) || NamedBy(rings, me, h1, h2, i, k, a);
    }
    if i: nat, k: nat :| NamedBy(rings, me, h0, h1, i, k, a) {
      assert NamedBy(rings, me, h0, h2, i, k, a);
    }
    if i: nat, k: nat :| NamedBy(rings, me, h1, h2, i, k, a) {
      assert NamedBy(rings, me, h0, h2, i, k, a);
    }
  }

  lemma NamedLess(rings: seq<Ring>, me: nat, h0: seq<nat>, h1: seq<nat>, h2: seq<nat>, a: nat)
    requires |h1| == |h2| && forall i: nat | i < |h1| && i != me :: h1[i] <= h2[i]
    ensures Named(rings, me, h0, h1, a) ==> Named(rings, me, h0, h2, a)
  {
    if i: nat, k: nat :| NamedBy(rings, me, h0, h1, i, k, a) {
      assert NamedBy(rings, me, h0, h2, i, k, a);
    }
  }

  lemma AppliedMore(rings: seq<Ring>, me: nat, h0: seq<nat>, h1: seq<nat>, h2: seq<nat>,
                    c0: set<nat>, c1: set<nat>, c2: set<nat>)
    requires |h0| == |rings| && Ahead(h0, h1) && Ahead(h1, h2)
    requires Applied(rings, me, h0, h1, c0, c1) && Applied(rings, me, h1, h2, c1, c2)
    ensures Applied(rings, me, h0, h2, c0, c2)
  {
    forall a ensures Named(rings, me, h0, h2, a) <==> Named(rings, me, h0, h1, a) || Named(rings, me, h1, h2, a) {
      NamedSplits(rings, me, h0, h1, h2, a);
    }
  }

  lemma AppliedNone(rings: seq<Ring>, me: nat, h: seq<nat>, c: set<nat>)
    ensures Applied(rings, me, h, h, c, c)
  {
  }

  lemma NamedOnRing(rings: seq<Ring>, me: nat, h: seq<nat>, i: nat, stop: nat, a: nat)
    requires |h| == |rings| && i < |rings| && i != me && h[i] <= stop && CommittedBelow(rings[i], stop)
    ensures Named(rings, me, h, h[i := stop], a) <==> InSomeLog(rings[i], h[i], stop, a)
  {
    var h1 := h[i := stop];
    if j: nat, k: nat :| NamedBy(rings, me, h, h1, j, k, a) {
      assert j == i;
    }
    if InSomeLog(rings[i], h[i], stop, a) {
      var k: nat :| h[i] <= k < stop && InLog(rings[i], k, a);
      assert NamedBy(rings, me, h, h[i := stop], i, k, a);
    }
  }

  /** Consuming one ring up to `stop`. */
  lemma AppliedRing(rings: seq<Ring>, me: nat, h: seq<nat>, i: nat, stop: nat, c: set<nat>)
    requires |h| == |rings| && i < |rings| && i != me && h[i] <= stop && CommittedBelow(rings[i], stop)
    ensures Applied(rings, me, h, h[i := stop], c, AfterLogs(c, rings[i], h[i], stop))
  {
    var r, c1 := rings[i], AfterLogs(c, rings[i], h[i], stop);
    OnlyShrinks(c, r, h[i], stop);
    forall a | a in c1 ensures !Named(rings, me, h, h[i := stop], a) {
      NamedOnRing(rings, me, h, i, stop, a);
      forall k: nat | h[i] <= k < stop ensures !InLog(r, k, a) {
        NothingStaleIsLeft(c, r, h[i], stop, k);
      }
    }
    if MaskLogs(rings, me, h, h[i := stop]) {
      forall a | a in c && !Named(rings, me, h, h[i := stop], a) ensures a in c1 {
        NamedOnRing(rings, me, h, i, stop, a);
        forall k: nat | h[i] <= k < stop ensures a !in LogLines(r[k].log.items) {
          assert !InLog(r, k, a);
        }
        ConsumesExactly(c, r, h[i], stop, a);
      }
    }
  }

  class Node {
    const node: nat
    const heads: array<nat>       // where this node stands on the ring of each node
    const clock: array<nat>       // the cache clock
    var cached: set<nat>          // the hardware lines in the cache of this node

    ghost predicate Shape() {
      heads.Length == clock.Length && heads != clock && node < heads.Length
    }

    /** The head mutex is free: the clock of ring i is exactly what the consumed logs say. */
    ghost predicate Exact(r: Ring, i: nat)
      requires Shape() && i < heads.Length
      reads heads, clock
    {
      CommittedBelow(r, heads[i]) && clock[i] == LastRelease(r, heads[i])
    }

    constructor (node: nat, nodes: nat)
      requires node < nodes
      ensures Shape() && heads.Length == nodes && fresh(heads) && fresh(clock)
      ensures forall i: nat | i < nodes :: heads[i] == 0 && clock[i] == 0
    {
      this.node := node;
      heads := new nat[nodes](_ => 0);
      clock := new nat[nodes](_ => 0);
      cached := {};
    }

    /** take_head, process_log and consume_head for one log. */
    method ConsumeOne(r: Ring, i: nat)
      requires Shape() && i < heads.Length && heads[i] < |r| && r[heads[i]].Committed?
      modifies this`cached, heads
      ensures heads[..] == old(heads[..])[i := old(heads[i]) + 1]
      ensures cached == AfterLog(old(cached), r[old(heads[i])].log.items)
    {
      var all, lines := ProcessLog(r[heads[i]].log.items);
      cached := if all then {} else cached - (set a | a in lines);
      heads[i] := heads[i] + 1;
    }

    // ---- a location clock that others may write to ----

    /** Every component for another node is the index of a release log of a ring that is committed up to there. */
    ghost predicate Live(loc: VectorClock, rings: seq<Ring>)
      reads loc.vc
    {
      && Shape() && |rings| == loc.vc.Length == heads.Length && loc.vc != heads && loc.vc != clock
      && forall i: nat | i < loc.vc.Length && i != node :: Genuine(rings[i], loc.vc[i])
    }

    /** Other threads may store to the location; if `quiet`, they do not. */
    method Interfere(loc: VectorClock, rings: seq<Ring>, ghost quiet: bool)
      requires Live(loc, rings)
      modifies loc.vc
      ensures Live(loc, rings) && (quiet ==> loc.vc[..] == old(loc.vc[..]))
    {
    }

    /** Element i of the location clock, as it is at some moment from now on. */
    method ReadLive(loc: VectorClock, i: nat, rings: seq<Ring>, ghost quiet: bool) returns (v: nat)
      requires Live(loc, rings) && i < heads.Length
      modifies loc.vc
      ensures Live(loc, rings) && (quiet ==> loc.vc[..] == old(loc.vc[..]))
      ensures v == loc.vc[i] && (quiet ==> v == old(loc.vc[i])) && (i != node ==> Genuine(rings[i], v))
    {
      Interfere(loc, rings, quiet);
      v := loc.vc[i];
    }

    /** In the inner loop of help_consume: from head h0 and cache c0 on, `clk` is the local variable and `want` the
        target as it was read last. */
    ghost predicate Helped(r: Ring, i: nat, clk: nat, want: nat, h0: nat, c0: set<nat>)
      requires i < heads.Length
      reads heads, `cached
    {
      && h0 <= heads[i] && CommittedBelow(r, heads[i]) && clk == LastRelease(r, heads[i]) && Genuine(r, want)
      && cached == AfterLogs(c0, r, h0, heads[i])
    }

    /** The inner loop of help_consume, under the head mutex; `last` is the target as it was read last. */
    method HelpRing(rings: seq<Ring>, i: nat, target: VectorClock, ghost quiet: bool) returns (ghost last: nat)
      requires Live(target, rings) && i < heads.Length && i != node && Exact(rings[i], i)
      modifies this`cached, heads, clock, target.vc
      ensures Live(target, rings) && (quiet ==> target.vc[..] == old(target.vc[..]))
      ensures Exact(rings[i], i) && old(heads[i]) <= heads[i] && old(clock[i]) <= clock[i] && last <= clock[i]
      ensures quiet ==> last == old(target.vc[i])
      ensures quiet ==>
                if old(clock[i]) < last then heads[i] == clock[i] == last
                else heads[i] == old(heads[i]) && clock[i] == old(clock[i])
      ensures cached == AfterLogs(old(cached), rings[i], old(heads[i]), heads[i])
      ensures forall j: nat | j < heads.Length && j != i :: heads[j] == old(heads[j]) && clock[j] == old(clock[j])
    {
      var clk := clock[i];
      ghost var h0, c0 := heads[i], cached;
      var want := ReadLive(target, i, rings, quiet);
      if clk < want {
        HeadBelow(rings[i], h0, want);
      }
      while clk < want
        invariant Live(target, rings) && (quiet ==> target.vc[..] == old(target.vc[..]) && want == old(target.vc[i]))
        invariant Helped(rings[i], i, clk, want, h0, c0)
        invariant quiet ==> if old(clock[i]) < want then heads[i] <= want else heads[i] == h0
        invariant clock[..] == old(clock[..])
        invariant forall j: nat | j < heads.Length && j != i :: heads[j] == old(heads[j])
        decreases |rings[i]| - heads[i]
      {
        clk, want := HelpOne(rings, i, target, clk, want, h0, c0, quiet);
      }
      AtTarget(rings[i], heads[i], want);
      LastReleaseMonotone(rings[i], h0, heads[i]);
      clock[i] := clk;
      last := want;
    }

    method HelpOne(rings: seq<Ring>, i: nat, target: VectorClock, clk: nat, want: nat,
                   ghost h0: nat, ghost c0: set<nat>, ghost quiet: bool)
      returns (clk': nat, want': nat)
      requires Live(target, rings) && i < heads.Length && i != node
      requires Helped(rings[i], i, clk, want, h0, c0) && clk < want
      modifies this`cached, heads, target.vc
      ensures Live(target, rings) && (quiet ==> target.vc[..] == old(target.vc[..]) && want' == old(target.vc[i]))
      ensures Helped(rings[i], i, clk', want', h0, c0)
      ensures heads[..] == old(heads[..])[i := old(heads[i]) + 1] && old(heads[i]) < want
    {
      HeadBelow(rings[i], heads[i], want);
      clk' := ConsumeNext(rings[i], i, clk);
      want' := ReadLive(target, i, rings, quiet);
    }

    /** One iteration: the log at the head is processed, and a release log moves the local clk. */
    method ConsumeNext(r: Ring, i: nat, clk: nat) returns (clk': nat)
      requires Shape() && i < heads.Length && heads[i] < |r| && r[heads[i]].Committed?
      requires clk == LastRelease(r, heads[i])
      modifies this`cached, heads
      ensures heads[..] == old(heads[..])[i := old(heads[i]) + 1] && clk' == LastRelease(r, heads[i])
      ensures cached == AfterLog(old(cached), r[old(heads[i])].log.items)
    {
      var h := heads[i];
      clk' := if r[h].log.rel then h + 1 else clk;
      ConsumeOne(r, i);
    }

    lemma AtTarget(r: Ring, h: nat, target: nat)
      requires h <= |r|
      ensures h <= target && LastRelease(r, h) >= target ==> h == target == LastRelease(r, h)
    {
    }

    /** One visit of the cache agent to ring i: at most LOG_MAX_BATCH logs, and fewer only when the next one is
        not committed.  A batch without a release log leaves the clock alone. */
    method RunBatch(r: Ring, i: nat)
      requires Shape() && i < heads.Length && Exact(r, i)
      modifies this`cached, heads, clock
      ensures Exact(r, i) && old(heads[i]) <= heads[i] <= old(heads[i]) + LOG_MAX_BATCH
      ensures heads[i] < old(heads[i]) + LOG_MAX_BATCH ==> heads[i] == |r| || r[heads[i]].Reserved?
      ensures old(clock[i]) <= clock[i]
      ensures cached == AfterLogs(old(cached), r, old(heads[i]), heads[i])
      ensures forall j: nat | j < heads.Length && j != i :: heads[j] == old(heads[j]) && clock[j] == old(clock[j])
    {
      var clk := 0;
      ghost var h0 := heads[i];
      var j := 0;
      while j < LOG_MAX_BATCH
        invariant j <= LOG_MAX_BATCH && heads[i] == h0 + j && CommittedBelow(r, heads[i])
        invariant clk == (if LastRelease(r, h0) == LastRelease(r, heads[i]) then 0 else LastRelease(r, heads[i]))
        invariant clock[..] == old(clock[..])
        invariant forall k: nat | k < heads.Length && k != i :: heads[k] == old(heads[k])
        invariant cached == AfterLogs(old(cached), r, h0, heads[i])
      {
        var h := heads[i];
        if h == |r| || r[h].Reserved? {
          break;
        }
        if r[h].log.rel {
          clk := h + 1;
        }
        ConsumeOne(r, i);
        j := j + 1;
      }
      LastReleaseMonotone(r, h0, heads[i]);
      if clk != 0 {
        clock[i] := clk;
      }
    }

    // ---- help_consume over all nodes, and thread_acquire ----

    ghost predicate AllExact(rings: seq<Ring>)
      requires Shape() && |rings| == heads.Length
      reads heads, clock
    {
      forall i: nat | i < heads.Length && i != node :: Exact(rings[i], i)
    }

    /** Either ring k is dealt with, with target w as it was read last, or its clock is as it was. */
    ghost predicate Progress(done: bool, k: nat, before: nat, w: nat, target: nat, quiet: bool)
      requires Shape() && k < clock.Length
      reads clock
    {
      if done && k != node then
        before <= clock[k] && w <= clock[k] && (quiet ==> w == target && clock[k] == Max(before, w))
      else clock[k] == before
    }

    /** Since the heads were h0 and the cache was c0, exactly the logs that the heads have passed were applied. */
    ghost predicate Consumed(rings: seq<Ring>, h0: seq<nat>, c0: set<nat>)
      reads heads, `cached
    {
      Ahead(h0, heads[..]) && |h0| == |rings| && Applied(rings, node, h0, heads[..], c0, cached)
    }

    lemma ConsumedMore(rings: seq<Ring>, h0: seq<nat>, c0: set<nat>, h1: seq<nat>, c1: set<nat>)
      requires |h0| == |rings| && Ahead(h0, h1) && Applied(rings, node, h0, h1, c0, c1) && Consumed(rings, h1, c1)
      ensures Consumed(rings, h0, c0)
    {
      AppliedMore(rings, node, h0, h1, heads[..], c0, c1, cached);
    }

    /** The state of help_consume: which nodes are `done`, with what `waited`, since the clock was `before`, the
        target `first`, the heads h0 and the cache c0. */
    ghost predicate Helping(rings: seq<Ring>, target: VectorClock, done: seq<bool>, waited: seq<nat>,
                            before: seq<nat>, first: seq<nat>, h0: seq<nat>, c0: set<nat>, quiet: bool)
      reads heads, clock, target.vc, `cached
    {
      && Consumed(rings, h0, c0)
      && Live(target, rings) && AllExact(rings) && (quiet ==> target.vc[..] == first)
      && |done| == |waited| == |before| == |first| == heads.Length
      && forall k: nat | k < heads.Length :: Progress(done[k], k, before[k], waited[k], first[k], quiet)
    }

    /** Every node but this one is consumed up to the target as it was read last, which is what `waited` records.
        `misses` says which try_lock calls find the head mutex taken; when it is used up they succeed. */
    method HelpConsume(rings: seq<Ring>, target: VectorClock, misses: nat, ghost quiet: bool)
      returns (ghost waited: seq<nat>)
      requires Live(target, rings) && AllExact(rings)
      modifies this`cached, heads, clock, target.vc
      ensures Live(target, rings) && (quiet ==> target.vc[..] == old(target.vc[..])) && AllExact(rings)
      ensures |waited| == heads.Length && Consumed(rings, old(heads[..]), old(cached))
      ensures clock[node] == old(clock[node])
      ensures forall i: nat | i < heads.Length && i != node :: old(clock[i]) <= clock[i] && waited[i] <= clock[i]
      ensures quiet ==>
                forall i: nat | i < heads.Length && i != node ::
                  waited[i] == old(target.vc[i]) && clock[i] == Max(old(clock[i]), waited[i])
    {
      var n := heads.Length;
      var nodeDone := new bool[n](_ => false);
      waited := seq(n, _ => 0);
      ghost var before, first, h0, c0 := clock[..], target.vc[..], heads[..], cached;
      AppliedNone(rings, node, h0, c0);
      var left: nat := misses;
      var done := false;
      while !done
        invariant fresh(nodeDone) && Helping(rings, target, nodeDone[..], waited, before, first, h0, c0, quiet)
        invariant done ==> forall k: nat | k < n && k != node :: nodeDone[k]
        decreases left, !done
      {
        done := true;
        ghost var left0 := left;
        var i := n;
        while i > 0
          invariant i <= n && fresh(nodeDone)
          invariant Helping(rings, target, nodeDone[..], waited, before, first, h0, c0, quiet)
          invariant left <= left0 && (!done ==> left < left0)
          invariant done ==> forall k: nat | i <= k < n && k != node :: nodeDone[k]
        {
          i := i - 1;
          if nodeDone[i] || i == node {
            continue;
          }
          var ok;
          ok, waited := VisitNode(rings, i, target, nodeDone, waited, left == 0, before, first, h0, c0, quiet);
          if !ok {
            left := left - 1;
            done := false;
          }
        }
      }
      HelpedAll(rings, target, nodeDone[..], waited, before, first, h0, c0, quiet);
    }

    lemma HelpedAll(rings: seq<Ring>, target: VectorClock, done: seq<bool>, waited: seq<nat>,
                    before: seq<nat>, first: seq<nat>, h0: seq<nat>, c0: set<nat>, quiet: bool)
      requires Helping(rings, target, done, waited, before, first, h0, c0, quiet)
      requires forall k: nat | k < |done| && k != node :: done[k]
      ensures clock[node] == before[node]
      ensures forall i: nat | i < heads.Length && i != node :: before[i] <= clock[i] && waited[i] <= clock[i]
      ensures quiet ==>
                forall i: nat | i < heads.Length && i != node ::
                  waited[i] == first[i] && clock[i] == Max(before[i], waited[i])
    {
      forall i: nat | i < heads.Length ensures Progress(done[i], i, before[i], waited[i], first[i], quiet) {
      }
    }

    method VisitNode(rings: seq<Ring>, i: nat, target: VectorClock, nodeDone: array<bool>, ghost was: seq<nat>,
                     free: bool, ghost before: seq<nat>, ghost first: seq<nat>,
                     ghost h0: seq<nat>, ghost c0: set<nat>, ghost quiet: bool)
      returns (ok: bool, ghost waited: seq<nat>)
      requires Helping(rings, target, nodeDone[..], was, before, first, h0, c0, quiet)
      requires i < heads.Length && i != node && !nodeDone[i]
      modifies this`cached, heads, clock, target.vc, nodeDone
      ensures Helping(rings, target, nodeDone[..], waited, before, first, h0, c0, quiet)
      ensures nodeDone[..] == if ok then old(nodeDone[..])[i := true] else old(nodeDone[..])
      ensures free ==> ok
    {
      ghost var h1, c1 := heads[..], cached;
      assert Progress(nodeDone[i], i, before[i], was[i], first[i], quiet);
      ghost var last;
      ok, last := TryNode(rings, i, target, free, quiet);
      ConsumedMore(rings, h0, c0, h1, c1);
      waited := was;
      if ok {
        nodeDone[i], waited := true, was[i := last];
      }
      forall k: nat | k < heads.Length ensures Progress(nodeDone[k], k, before[k], waited[k], first[k], quiet) {
        assert old(Progress(nodeDone[k], k, before[k], was[k], first[k], quiet));
      }
    }

    /** One look at node i: nothing to do, or the head mutex is taken, or it is `free` and the node is helped. */
    method TryNode(rings: seq<Ring>, i: nat, target: VectorClock, free: bool, ghost quiet: bool)
      returns (ok: bool, ghost last: nat)
      requires Live(target, rings) && AllExact(rings) && i < heads.Length && i != node
      modifies this`cached, heads, clock, target.vc
      ensures Live(target, rings) && (quiet ==> target.vc[..] == old(target.vc[..])) && AllExact(rings)
      ensures old(clock[i]) <= clock[i] && Consumed(rings, old(heads[..]), old(cached)) && (free ==> ok)
      ensures if ok then last <= clock[i] else clock[i] == old(clock[i])
      ensures ok && quiet ==> last == old(target.vc[i]) && clock[i] == Max(old(clock[i]), last)
      ensures forall j: nat | j < clock.Length && j != i :: clock[j] == old(clock[j])
    {
      AppliedNone(rings, node, heads[..], cached);
      var want := ReadLive(target, i, rings, quiet);
      if clock[i] >= want {
        return true, want;
      }
      if !free {
        return false, 0;
      }
      last := HelpUnderLock(rings, i, target, quiet);
      ok := true;
    }

    method HelpUnderLock(rings: seq<Ring>, i: nat, target: VectorClock, ghost quiet: bool) returns (ghost last: nat)
      requires Live(target, rings) && AllExact(rings) && i < heads.Length && i != node
      modifies this`cached, heads, clock, target.vc
      ensures Live(target, rings) && (quiet ==> target.vc[..] == old(target.vc[..])) && AllExact(rings)
      ensures old(clock[i]) <= clock[i] && last <= clock[i] && Consumed(rings, old(heads[..]), old(cached))
      ensures quiet ==> last == old(target.vc[i]) && clock[i] == Max(old(clock[i]), last)
      ensures forall j: nat | j < clock.Length && j != i :: clock[j] == old(clock[j])
    {
      ghost var h0, c0 := heads[..], cached;
      assert Exact(rings[i], i);
      last := HelpRing(rings, i, target, quiet);
      forall k: nat | k < heads.Length && k != node ensures Exact(rings[k], k) {
        assert k != i ==> old(Exact(rings[k], k));
      }
      assert Exact(rings[i], i) && heads[..] == h0[i := heads[i]];
      AppliedRing(rings, node, h0, i, heads[i], c0);
    }

    /** No line of a log below clock c that had not been consumed at heads h0 is still cached. */
    lemma NoneBelow(rings: seq<Ring>, h0: seq<nat>, c0: set<nat>, c: seq<nat>)
      requires Shape() && |rings| == |c| == heads.Length && AllExact(rings) && Consumed(rings, h0, c0)
      requires forall i: nat | i < heads.Length && i != node :: c[i] <= clock[i]
      ensures forall a | a in cached :: !Named(rings, node, h0, c, a)
    {
      forall i: nat | i < heads.Length && i != node ensures c[i] <= heads[i] {
        assert Exact(rings[i], i);
        LastReleaseIsLargest(rings[i], heads[i]);
      }
      forall a | a in cached ensures !Named(rings, node, h0, c, a) {
        NamedLess(rings, node, h0, c, heads[..], a);
      }
    }

    /** The thread clock counts nothing of another node that this node has not consumed. */
    ghost predicate Waited(threadClock: VectorClock)
      requires Shape() && threadClock.vc.Length == clock.Length
      reads clock, threadClock.vc
    {
      forall i: nat | i < clock.Length && i != node :: threadClock.vc[i] <= clock[i]
    }

    /** VectorClock::merge with a clock that is read element by element while others may store to it; `merged`
        records what was read. */
    method MergeLive(threadClock: VectorClock, loc: VectorClock, rings: seq<Ring>, ghost quiet: bool)
      returns (ghost merged: seq<nat>)
      requires Live(loc, rings) && threadClock.vc.Length == heads.Length && threadClock.vc != loc.vc
      modifies threadClock.vc, loc.vc
      ensures Live(loc, rings) && (quiet ==> loc.vc[..] == old(loc.vc[..]))
      ensures |merged| == heads.Length && threadClock.vc[..] == Merge(old(threadClock.vc[..]), merged)
      ensures quiet ==> merged == old(loc.vc[..])
    {
      merged := loc.vc[..];
      var i := 0;
      while i < threadClock.vc.Length
        invariant i <= threadClock.vc.Length == |merged| && Live(loc, rings)
        invariant quiet ==> loc.vc[..] == old(loc.vc[..]) == merged
        invariant forall k: nat | k < i :: threadClock.vc[k] == Max(old(threadClock.vc[k]), merged[k])
        invariant forall k: nat | i <= k < threadClock.vc.Length :: threadClock.vc[k] == old(threadClock.vc[k])
      {
        var v := ReadLive(loc, i, rings, quiet);
        threadClock.vc[i] := if threadClock.vc[i] > v then threadClock.vc[i] else v;
        merged := merged[i := v];
        i := i + 1;
      }
    }

    /**
     thread_acquire.  The location clock is passed by reference, and others may store to it at any time: `waited`
     and `merged` are the elements as help_consume and the merge read them last.  The thread clock stays within
     the cache clock exactly if what was merged has been consumed; it does if nobody stores to the location
     (`quiet`), and then the thread clock becomes the join.
     */
    method ThreadAcquire(threadClock: VectorClock, loc: VectorClock, rings: seq<Ring>, misses: nat, ghost quiet: bool)
      returns (ghost waited: seq<nat>, ghost merged: seq<nat>)
      requires Live(loc, rings) && AllExact(rings) && threadClock.vc.Length == heads.Length
      requires threadClock.vc != loc.vc && threadClock.vc != heads && threadClock.vc != clock
      modifies this`cached, heads, clock, threadClock.vc, loc.vc
      ensures AllExact(rings) && Consumed(rings, old(heads[..]), old(cached))
      ensures forall a | a in cached :: !Named(rings, node, old(heads[..]), waited, a)
      ensures |waited| == |merged| == heads.Length
      ensures threadClock.vc[..] == Merge(old(threadClock.vc[..]), merged)
      ensures forall i: nat | i < heads.Length && i != node :: old(clock[i]) <= clock[i] && waited[i] <= clock[i]
      ensures old(Waited(threadClock)) ==>
                (Waited(threadClock) <==> forall i: nat | i < heads.Length && i != node :: merged[i] <= clock[i])
      ensures quiet ==>
                && (old(Waited(threadClock)) ==> Waited(threadClock))
                && threadClock.vc[..] == Merge(old(threadClock.vc[..]), old(loc.vc[..]))
                && (forall a | a in cached :: !Named(rings, node, old(heads[..]), old(loc.vc[..]), a))
                && forall i: nat | i < heads.Length && i != node :: clock[i] == Max(old(clock[i]), old(loc.vc[i]))
    {
      waited := HelpConsume(rings, loc, misses, quiet);
      NoneBelow(rings, old(heads[..]), old(cached), waited);
      if quiet {
        NoneBelow(rings, old(heads[..]), old(cached), old(loc.vc[..]));
      }
      merged := MergeLive(threadClock, loc, rings, quiet);
      forall i: nat | i < clock.Length ensures threadClock.vc[i] == Max(old(threadClock.vc[i]), merged[i]) {
        assert threadClock.vc[..][i] == threadClock.vc[i];
      }
    }
  }
}
