/**
 LogManager as an object, without interference: what perform_gc, get_new_log, produce_tail, take_head and
 consume_head do to the broadcast sequence of logs, and where each buffer is.  The Ring modules cover the
 interleavings.
 */
module LogRing {
  import opened Broadcast
  import opened Pigeonhole
  import opened BoundedQueue

  /** A buffer: what has been written to it since it was last reset. */
  type Items = seq<bv64>

  datatype PubEntry = PubEntry(log: nat, idx: nat, rel: bool)

  datatype Option<T> = None | Some(value: T)

  lemma BelowNext(i: nat)
    ensures multiset(Below(i + 1)) == multiset(Below(i)) + multiset{i}
  {
    assert Below(i + 1) == Below(i) + {i};
  }

  lemma NextFree(free: seq<nat>, i: nat)
    requires multiset(free) == multiset(Below(i))
    ensures multiset(free + [i]) == multiset(Below(i + 1))
  {
    BelowNext(i);
    assert multiset(free + [i]) == multiset(free) + multiset{i};
  }

  lemma HeldToOut(free: multiset<nat>, held: multiset<nat>, out: seq<nat>, b: nat)
    requires b in held
    ensures |held| >= 1
    ensures free + (held - multiset{b}) + multiset(out + [b]) == free + held + multiset(out)
  {
    assert held - multiset{b} + multiset{b} == held;
    assert multiset(out + [b]) == multiset(out) + multiset{b};
  }

  lemma FreeToHeld(free: seq<nat>, held: multiset<nat>, out: multiset<nat>, b: nat)
    ensures multiset(free) + (held + multiset{b}) + out == multiset([b] + free) + held + out
  {
    assert multiset([b] + free) == multiset{b} + multiset(free);
  }

  /** Elements that move from the front of one sequence to the back of another. */
  lemma Moved(free: seq<nat>, held: multiset<nat>, out: seq<nat>, m: nat)
    requires m <= |out|
    ensures multiset(free + out[..m]) + held + multiset(out[m..]) == multiset(free) + held + multiset(out)
  {
    assert out == out[..m] + out[m..];
  }

  class LogManager {
    const node: nat                // node_id
    const count: nat               // LOG_COUNT
    const buf: array<Items>
    const pub: array<PubEntry>
    const heads: array<nat>        // subs[n].head, all nodes but this one being subscribed
    const free: Queue
    var tail: nat
    var bound: nat

    ghost var hist: seq<Log<Items>>       // everything produced, in tail order
    ghost var held: multiset<nat>         // buffers handed out and not yet produced
    ghost var out: seq<nat>               // buffers published and not yet reclaimed, oldest first

    ghost predicate Apart()
    {
      && pub.Length == count && buf.Length == count && free.size == count
      && 2 <= heads.Length && node < heads.Length
      && heads != free.seqs && heads != free.data
    }

    /** The published log number Freed() + i. */
    ghost predicate PublishedOk(i: nat)
      requires Apart() && count >= 2 && i < |out| && bound >= count && |hist| == tail == bound - count + |out|
      reads `bound, `hist, `out, `tail, pub, buf
    {
      var k := bound - count + i;
      && out[i] < count
      && pub[SlotOf(k, count)] == PubEntry(out[i], k + 1, hist[k].rel)
      && buf[out[i]] == hist[k].items
    }

    /** Each of the buffers is in exactly one place. */
    ghost predicate Conserved()
      reads `held, `out, free`contents
    {
      multiset(free.contents) + held + multiset(out) == multiset(Below(count))
    }

    ghost predicate HeadOk(n: nat)
      requires n < heads.Length
      reads `bound, `tail, heads
    {
      n != node ==> bound - count <= heads[n] <= tail
    }

    ghost predicate Valid()
      reads this, free, free.seqs, free.data, pub, buf, heads
    {
      RingOk() && free.Valid() && Conserved()
    }

    ghost predicate RingOk()
      reads `bound, `hist, `out, `tail, pub, buf, heads
    {
      && count >= 2 && Apart()
      && bound >= count && |hist| == tail == bound - count + |out|
      && (forall i: nat | i < |out| :: PublishedOk(i))
      && (forall n: nat | n < heads.Length :: HeadOk(n))
      && (forall j: nat | j < count :: pub[j].idx <= tail)
    }

    constructor (node: nat, nodes: nat, count: nat)
      requires count >= 2 && node < nodes && nodes >= 2
      ensures Valid() && hist == [] && held == multiset{} && out == []
      ensures fresh(buf) && fresh(pub) && fresh(heads) && fresh(free) && fresh(free.seqs) && fresh(free.data)
    {
      this.node, this.count := node, count;
      buf := new Items[count](_ => []);
      pub := new PubEntry[count](i => PubEntry(i, 0, false));
      heads := new nat[nodes](_ => 0);
      free := new Queue(count);
      tail, bound := 0, count;
      hist, held, out := [], multiset{}, [];
      new;
      var i := 0;
      while i < count
        modifies free, free.seqs, free.data
        invariant i <= count && free.Valid() && |free.contents| == i
        invariant multiset(free.contents) == multiset(Below(i))
        invariant forall j: nat | j < count :: pub[j].idx == 0
        invariant forall n: nat | n < heads.Length :: heads[n] == 0
      {
        NextFree(free.contents, i);
        var ok := free.Enqueue(i);
        i := i + 1;
      }
      assert multiset(out) == multiset{};
    }

    // ---- counting ----

    lemma Total()
      requires Conserved()
      ensures |free.contents| + |held| + |out| == count
      ensures forall b | b in held :: b < count && b !in free.contents && b !in out
    {
      BelowSize(count);
      assert |multiset(Below(count))| == count;
      assert |multiset(free.contents) + held + multiset(out)| == |free.contents| + |held| + |out|;
      forall b | b in held ensures b < count && b !in free.contents && b !in out {
        assert (multiset(free.contents) + held + multiset(out))[b] == multiset(Below(count))[b] <= 1;
      }
    }

    // ---- the operations ----

    /** The log at the head of subscriber n, if it has one: always the next one in tail order. */
    method TakeHead(n: nat) returns (r: Option<PubEntry>)
      requires Valid() && n < heads.Length && n != node
      ensures heads[n] <= |hist| && (r.None? <==> heads[n] == |hist|)
      ensures r.Some? ==>
                && r.value.log < count && r.value.idx == heads[n] + 1
                && Log(buf[r.value.log], r.value.rel) == hist[heads[n]]
    {
      assert HeadOk(n);
      var h := heads[n];
      var entry := pub[SlotOf(h, count)];
      if h < tail {
        assert PublishedOk(h - (bound - count));
      }
      if entry.idx != h + 1 {
        return None;
      }
      return Some(entry);
    }

    method ConsumeHead(n: nat)
      requires Valid() && n < heads.Length && n != node && heads[n] < |hist|
      modifies heads
      ensures Valid() && heads[..] == old(heads[..])[n := old(heads[n]) + 1]
    {
      assert HeadOk(n);
      heads[n] := heads[n] + 1;
      forall m: nat | m < heads.Length ensures HeadOk(m) {
        assert m != n ==> old(HeadOk(m));
      }
    }

    /** The three stores of produce_tail into the next slot, which no unreclaimed log uses. */
    method FillSlot(b: nat, rel: bool)
      requires RingOk() && b < count && |out| < count
      modifies this`tail, this`hist, this`out, pub
      ensures RingOk() && hist == old(hist) + [Log(buf[b], rel)] && out == old(out) + [b]
    {
      var t := tail;
      var j := SlotOf(t, count);
      ghost var out0 := out;
      tail := tail + 1;
      pub[j] := PubEntry(b, t + 1, rel);
      hist := hist + [Log(buf[b], rel)];
      out := out + [b];
      forall i: nat | i < |out| ensures PublishedOk(i) {
        if i < |out0| {
          SlotsDiffer(bound - count + i, t, count);
          assert old(PublishedOk(i));
        }
      }
      forall n: nat | n < heads.Length ensures HeadOk(n) {
        assert old(HeadOk(n));
      }
    }

    /** Log::write into a buffer that its caller holds: no published log lives in it. */
    method Write(b: nat, e: bv64)
      requires Valid() && b in held
      modifies buf
      ensures Valid() && b < count && buf[..] == old(buf[..])[b := old(buf[b]) + [e]]
    {
      Total();
      buf[b] := buf[b] + [e];
      forall i: nat | i < |out| ensures PublishedOk(i) {
        assert old(PublishedOk(i));
      }
      forall n: nat | n < heads.Length ensures HeadOk(n) {
        assert old(HeadOk(n));
      }
    }

    /** Publishes a buffer that its caller holds, and returns the release clock. */
    method ProduceTail(b: nat, rel: bool) returns (clk: nat)
      requires Valid() && b in held
      modifies this`tail, this`hist, this`held, this`out, pub
      ensures Valid() && clk == |hist|
      ensures b < count && hist == old(hist) + [Log(buf[b], rel)]
      ensures held == old(held) - multiset{b} && out == old(out) + [b]
    {
      Total();
      HeldToOut(multiset(free.contents), held, out, b);
      FillSlot(b, rel);
      held := held - multiset{b};
      clk := tail;
    }

    // ---- collection ----

    /** The bound that perform_gc computes: one round further, but not beyond a round after any subscriber. */
    ghost predicate IsNextBound(b: nat)
      reads this, heads
    {
      && bound <= b <= bound + count
      && (forall n: nat | n < heads.Length && n != node :: b <= heads[n] + count)
      && (b == bound + count || exists n: nat | n < heads.Length :: n != node && b == heads[n] + count)
    }

    /** Some subscriber has consumed none of the logs that are not yet reclaimed. */
    ghost predicate Stuck(b: nat)
      reads heads
    {
      exists n: nat | n < heads.Length :: n != node && heads[n] + count == b
    }

    method NextBound() returns (newB: nat)
      requires Valid()
      ensures IsNextBound(newB) && newB - bound <= |out| && (newB == bound <==> Stuck(bound))
    {
      newB := bound + count;
      var i := 0;
      while i < heads.Length
        invariant i <= heads.Length && bound <= newB <= bound + count
        invariant forall n: nat | n < i && n != node :: newB <= heads[n] + count
        invariant newB == bound + count || exists n: nat | n < i :: n != node && newB == heads[n] + count
      {
        if i != node {
          assert HeadOk(i);
          var h := heads[i] + count;
          if h < newB && h >= bound {
            newB := h;
          }
        }
        i := i + 1;
      }
      var other := if node == 0 then 1 else 0;
      assert HeadOk(other);
    }

    /** The loop that puts reclaimed buffers back, oldest first; the freelist has room for all of them. */
    method ReclaimUntil(newB: nat)
      requires Valid() && bound <= newB && newB - bound <= |out|
      modifies free`enq, free`contents, free.seqs, free.data
      ensures free.Valid()
      ensures free.contents == old(free.contents) + out[..newB - bound]
    {
      Total();
      var i := bound;
      while i != newB
        invariant bound <= i <= newB && free.Valid()
        invariant free.contents == old(free.contents) + out[..i - bound]
      {
        var log := pub[SlotOf(i, count)].log;
        assert log == out[i - bound] by {
          assert old(PublishedOk(i - bound));
          assert SlotOf(i, count) == SlotOf(i - count, count);
        }
        var ok := free.Enqueue(log);
        assert out[..i + 1 - bound] == out[..i - bound] + [out[i - bound]];
        i := i + 1;
      }
    }

    /** The oldest published logs are given up; their slots and buffers may be used again. */
    method RaiseBound(newB: nat)
      requires RingOk() && bound <= newB && newB - bound <= |out|
      requires forall n: nat | n < heads.Length && n != node :: newB <= heads[n] + count
      modifies this`bound, this`out
      ensures RingOk() && bound == newB && out == old(out)[newB - old(bound)..]
    {
      ghost var m := newB - bound;
      forall k: nat | m <= k < |out| ensures PublishedOk(k) {
      }
      out := out[m..];
      bound := newB;
      forall k: nat | k < |out| ensures PublishedOk(k) {
        assert old(PublishedOk(m + k));
      }
      forall n: nat | n < heads.Length ensures HeadOk(n) {
        assert old(HeadOk(n));
      }
    }

    method Collect(newB: nat)
      requires Valid() && bound <= newB && newB - bound <= |out|
      requires forall n: nat | n < heads.Length && n != node :: newB <= heads[n] + count
      modifies this`bound, this`out, free`enq, free`contents, free.seqs, free.data
      ensures Valid() && bound == newB && out == old(out)[newB - old(bound)..]
      ensures free.contents == old(free.contents) + old(out)[..newB - old(bound)]
    {
      ReclaimUntil(newB);
      assert old(RingOk());
      assert RingOk();
      Moved(old(free.contents), held, out, newB - bound);
      RaiseBound(newB);
    }

    method PerformGc()
      requires Valid()
      modifies this`bound, this`out, free`enq, free`contents, free.seqs, free.data
      ensures Valid() && bound >= old(bound) && bound - old(bound) <= |old(out)|
      ensures forall n: nat | n < heads.Length && n != node :: bound <= heads[n] + count
      ensures bound == old(bound) + count || exists n: nat | n < heads.Length :: n != node && bound == heads[n] + count
      ensures bound == old(bound) <==> Stuck(old(bound))
      ensures out == old(out)[bound - old(bound)..]
      ensures free.contents == old(free.contents) + old(out)[..bound - old(bound)]
    {
      var newB := NextBound();
      Collect(newB);
    }

    /** A dequeued buffer is reset; no published log that is still needed lives in it. */
    method TakeFree(failures: nat) returns (r: Option<nat>)
      requires Valid()
      modifies this`held, free`deq, free`contents, free.seqs, buf
      ensures Valid() && (r.None? <==> old(free.contents) == [])
      ensures r.Some? ==> r.value < count && held == old(held) + multiset{r.value} && buf[r.value] == []
      ensures r.Some? ==> old(free.contents) == [r.value] + free.contents
      ensures r.None? ==> held == old(held) && free.contents == []
    {
      var ok, log := free.Dequeue(failures);
      if !ok {
        return None;
      }
      Total0(old(free.contents), log);
      FreeToHeld(free.contents, held, multiset(out), log);
      assert old(RingOk());
      assert RingOk();
      held := held + multiset{log};
      ResetBuffer(log);
      return Some(log);
    }

    /** log->size = 0 */
    method ResetBuffer(b: nat)
      requires RingOk() && b < count && b !in out
      modifies buf
      ensures RingOk() && buf[b] == []
    {
      buf[b] := [];
      forall i: nat | i < |out| ensures PublishedOk(i) {
        assert old(PublishedOk(i));
      }
      forall n: nat | n < heads.Length ensures HeadOk(n) {
        assert old(HeadOk(n));
      }
    }

    lemma Total0(contents: seq<nat>, b: nat)
      requires multiset(contents) + held + multiset(out) == multiset(Below(count)) && b in contents
      ensures b < count && b !in out
    {
      assert (multiset(contents) + held + multiset(out))[b] == multiset(Below(count))[b] <= 1;
    }

    /** get_new_log, its lock and its second look included: it fails exactly when nothing is free and some
        subscriber has consumed nothing since the last collection. */
    method GetNewLog(failures: nat) returns (r: Option<nat>)
      requires Valid()
      modifies this`bound, this`held, this`out, free`enq, free`deq, free`contents, free.seqs, free.data, buf
      ensures Valid()
      ensures r.None? <==> old(free.contents) == [] && Stuck(old(bound))
      ensures r.Some? ==> r.value < count && held == old(held) + multiset{r.value} && buf[r.value] == []
      ensures r.None? ==> held == old(held) && bound == old(bound)
    {
      r := TakeFree(failures);
      if r.Some? {
        return;
      }
      r := TakeFree(failures);
      if r.Some? {
        return;
      }
      PerformGc();
      r := TakeFree(failures);
    }
  }
}
