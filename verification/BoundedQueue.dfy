/**
 The freelist as an object, without interference: its retry loops against a plain queue.  The Freelist module
 covers the interleavings.
 */
module BoundedQueue {
  import opened Pigeonhole

  class Queue {
    const size: nat
    const seqs: array<nat>       // sequence_ of each cell
    const data: array<nat>       // data_ of each cell
    var enq: nat
    var deq: nat

    ghost var contents: seq<nat>

    /** Cell of position p: holding a value, or ready for the enqueue number p. */
    ghost predicate CellOk(p: nat)
      requires size > 0 && seqs.Length == size && data.Length == size
      reads this, seqs, data
    {
      var j := SlotOf(p, size);
      if deq <= p < enq && p - deq < |contents| then seqs[j] == p + 1 && data[j] == contents[p - deq] else seqs[j] == p
    }

    ghost predicate Valid()
      reads this, seqs, data
    {
      && size >= 2 && seqs != data && seqs.Length == size && data.Length == size
      && enq == deq + |contents| && |contents| <= size
      && forall p: nat | deq <= p < deq + size :: CellOk(p)
    }

    constructor (size: nat)
      requires size >= 2
      ensures Valid() && fresh(seqs) && fresh(data) && contents == [] && this.size == size
    {
      this.size := size;
      seqs := new nat[size](i => i);
      data := new nat[size](_ => 0);
      enq, deq, contents := 0, 0, [];
      new;
      forall p: nat | p < size ensures SlotOf(p, size) == p {
      }
    }

    lemma Apart(p: nat, q: nat)
      requires Valid() && deq <= p < deq + size && deq <= q < deq + size && p != q
      ensures SlotOf(p, size) != SlotOf(q, size)
    {
      SlotsDiffer(if p < q then p else q, if p < q then q else p, size);
    }

    /** A position one round later has the same cell, which holds the older value as long as it is queued. */
    lemma FullCell()
      requires Valid() && |contents| == size
      ensures seqs[SlotOf(enq, size)] == deq + 1 < enq
    {
      assert CellOk(deq);
      assert SlotOf(deq + size, size) == SlotOf(deq, size);
    }

    /** Without interference the cell never belongs to a later round, so the position is loaded only once. */
    method Enqueue(v: nat) returns (ok: bool)
      requires Valid()
      modifies this`enq, this`contents, seqs, data
      ensures Valid() && ok == (|old(contents)| < size)
      ensures contents == if ok then old(contents) + [v] else old(contents)
    {
      var pos := enq;
      var j := SlotOf(pos, size);
      var seen := seqs[j];
      if |contents| == size {
        FullCell();
      } else {
        assert CellOk(pos);
      }
      if seen < pos {
        return false;
      }
      forall p: nat | deq <= p < deq + size && p != pos ensures SlotOf(p, size) != j && CellOk(p) {
        Apart(p, pos);
      }
      enq := pos + 1;
      data[j] := v;
      seqs[j] := pos + 1;
      contents := contents + [v];
      ok := true;
    }

    /** `failures` is how often the compare-exchange fails spuriously; it is the only reason to go round again. */
    method Dequeue(failures: nat) returns (ok: bool, v: nat)
      requires Valid()
      modifies this`deq, this`contents, seqs
      ensures Valid() && ok == (old(contents) != [])
      ensures ok ==> old(contents) == [v] + contents
      ensures !ok ==> contents == old(contents)
    {
      var pos := deq;
      var left := failures;
      assert CellOk(pos);
      while true
        invariant pos == deq == old(deq) && contents == old(contents) && Valid()
        decreases left
      {
        var seen := seqs[SlotOf(pos, size)];
        assert CellOk(pos);
        if seen == pos + 1 {
          if left == 0 {
            break;
          }
          left := left - 1;
        } else {
          return false, 0;
        }
        pos := deq;
      }
      var j := SlotOf(pos, size);
      forall p: nat | deq <= p < deq + size && p != pos ensures SlotOf(p, size) != j && CellOk(p) {
        Apart(p, pos);
      }
      deq := pos + 1;
      v := data[j];
      seqs[j] := pos + size;
      contents := contents[1..];
      ok := true;
      assert SlotOf(pos + size, size) == j;
    }
  }
}
