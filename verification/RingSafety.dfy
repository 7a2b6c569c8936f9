/** Every step of every producer, collector and consumer keeps the ring invariant. */
module RingSafety {
  import opened Broadcast
  import opened Pigeonhole
  import opened Ring

  // ---- conservation of buffers ----

  lemma DequeueConserves(s: State, t: nat, underLock: bool, failed: Pc)
    requires Conservation(s) && t < |s.pcs| && HeldBuffer(s.pcs[t]).NoBuffer? && HeldBuffer(failed).NoBuffer?
    ensures Conservation(Dequeue(s, t, underLock, failed))
  {
    var s' := Dequeue(s, t, underLock, failed);
    forall b: nat | b < s.size ensures PlaceOk(s', b) {
      assert PlaceOk(s, b);
    }
    if s'.free != s.free {
      forall i: nat, j: nat | i < j < |s'.free| ensures s'.free[i] != s'.free[j] {
        assert s'.free[i] == s.free[i + 1] && s'.free[j] == s.free[j + 1];
      }
      forall i: nat | i < |s'.free| ensures s'.free[i] < s.size && s'.place[s'.free[i]] == InFreelist {
        assert s'.free[i] == s.free[i + 1] && s.free[0] != s.free[i + 1];
      }
    }
  }

  lemma FreeConserves(s: State, t: nat)
    requires Conservation(s) && t < |s.pcs| && CollectorOk(s, t) && s.pcs[t].Fetched? && s.pcs[t].b < s.size
    ensures Conservation(ApplyProduce(s, t, FreeOne))
  {
    var s', b := ApplyProduce(s, t, FreeOne), s.pcs[t].b;
    assert s.place[b] == At(s.freed);
    assert s'.free == s.free + [b];
    forall c: nat | c < s.size ensures PlaceOk(s', c) {
      assert PlaceOk(s, c);
      if s.place[c] == InFreelist {
        var i: nat :| i < |s.free| && s.free[i] == c;
        assert s'.free[i] == c;
      }
      assert s'.free[|s.free|] == b;
    }
    forall i: nat, j: nat | i < j < |s'.free| ensures s'.free[i] != s'.free[j] {
      assert s.place[s.free[i]] == InFreelist;
    }
  }

  /** The buffers of the window, oldest first. */
  ghost function Window(s: State): seq<nat>
    requires s.freed <= |s.hist|
  {
    seq<nat>(|s.hist| - s.freed, j requires 0 <= j < |s.hist| - s.freed => s.hist[s.freed + j].buf)
  }

  /** A producer that holds a buffer leaves room for one more log: the pigeonhole step of the argument. */
  lemma RoomToClaim(s: State, t: nat)
    requires Conservation(s) && t < |s.pcs| && HeldBuffer(s.pcs[t]).Buffer?
    ensures |s.hist| < s.freed + s.size
  {
    var b := HeldBuffer(s.pcs[t]).b;
    var all := Window(s) + [b];
    forall i: nat | i < |all|
      ensures all[i] < s.size && s.place[all[i]] == if i < |Window(s)| then At(s.freed + i) else With(t)
    {
      if i < |Window(s)| {
        assert all[i] == s.hist[s.freed + i].buf;
      }
    }
    DistinctFits(all, s.size);
  }

  lemma ClaimConserves(s: State, t: nat, rel: bool)
    requires Conservation(s) && t < |s.pcs| && s.pcs[t].Writing? && s.pcs[t].b < s.size
    ensures Conservation(ApplyProduce(s, t, Claim(rel)))
  {
    var s' := ApplyProduce(s, t, Claim(rel));
    RoomToClaim(s, t);
    forall c: nat | c < s.size ensures PlaceOk(s', c) {
      assert PlaceOk(s, c);
    }
  }

  lemma OtherConserves(s: State, t: nat, a: Action)
    requires Conservation(s) && t < |s.pcs| && ProducePossible(s, s.pcs[t], a)
    requires !a.TryFirst? && !a.TrySecond? && !a.TryThird? && !a.FreeOne? && !a.Claim?
    ensures Conservation(ApplyProduce(s, t, a))
  {
    var s' := ApplyProduce(s, t, a);
    assert HeldBuffer(s'.pcs[t]) == HeldBuffer(s.pcs[t]);
    assert forall k: nat | k < |s.hist| :: s'.hist[k].buf == s.hist[k].buf;
    forall b: nat | b < s.size ensures PlaceOk(s', b) {
      assert PlaceOk(s, b);
    }
  }

  lemma ProduceConserves(s: State, t: nat, a: Action)
    requires Conservation(s) && GcOk(s) && t < |s.pcs| && ProducePossible(s, s.pcs[t], a)
    ensures Conservation(ApplyProduce(s, t, a))
  {
    match a
    case TryFirst => DequeueConserves(s, t, false, NeedLock);
    case TrySecond => DequeueConserves(s, t, true, Scanning(0, s.bound + s.size));
    case TryThird => DequeueConserves(s, t, true, Unlocking(NoBuffer));
    case FreeOne => FreeConserves(s, t);
    case Claim(rel) => ClaimConserves(s, t, rel);
    case _ => OtherConserves(s, t, a);
  }

  // ---- the collector ----

  /** What a step of the collector does, given what it needs of the rest. */
  lemma OwnCollector(s: State, t: nat, a: Action)
    requires s.Shape() && t < |s.pcs| && ProducePossible(s, s.pcs[t], a) && CollectorOk(s, t)
    requires s.gcMtx.Nobody? ==> s.bound == s.freed + s.size
    requires a.ReadSlot? ==> s.freed < |s.hist| && s.pub[SlotOf(s.pcs[t].i, s.size)].log == s.hist[s.freed].buf
    requires a.ScanNode? && s.pcs[t].n != s.me ==> s.freed <= s.heads[s.pcs[t].n]
    ensures CollectorOk(ApplyProduce(s, t, a), t)
  {
    if a.ScanNode? {
      ScanCollector(s, t);
    }
  }

  lemma ScanCollector(s: State, t: nat)
    requires s.Shape() && t < |s.pcs| && ProducePossible(s, s.pcs[t], ScanNode) && CollectorOk(s, t)
    requires s.pcs[t].n != s.me ==> s.freed <= s.heads[s.pcs[t].n]
    ensures CollectorOk(ApplyProduce(s, t, ScanNode), t)
  {
  }

  lemma CollectorStep(s: State, t: nat, a: Action)
    requires Conservation(s) && GcOk(s) && ReadersOk(s) && PubOk(s) && t < |s.pcs| && ProducePossible(s, s.pcs[t], a)
    ensures CollectorOk(ApplyProduce(s, t, a), t)
  {
    if a.ReadSlot? {
      CollectedIsCommitted(s, t);
    }
    if a.ScanNode? && s.pcs[t].n != s.me {
      assert ReaderOk(s, s.pcs[t].n);
    }
    OwnCollector(s, t, a);
  }

  /** Without the collection mutex a producer touches neither the bound nor what was freed. */
  lemma NonHolderFrame(s: State, t: nat, a: Action)
    requires s.Shape() && t < |s.pcs| && ProducePossible(s, s.pcs[t], a) && !HoldsGc(s.pcs[t])
    ensures var s' := ApplyProduce(s, t, a);
            && s'.Shape() && s'.size == s.size && s'.me == s.me && s'.bound == s.bound && s'.freed == s.freed
            && s'.heads == s.heads && |s.hist| <= |s'.hist|
            && |s'.pcs| == |s.pcs| && (forall u: nat | u < |s.pcs| && u != t :: s'.pcs[u] == s.pcs[u])
            && (forall k: nat | k < |s.hist| :: s'.hist[k].buf == s.hist[k].buf)
  {
  }

  lemma CollectorFrame(s: State, s': State, u: nat)
    requires s.Shape() && s'.Shape() && u < |s.pcs| && u < |s'.pcs| && s'.pcs[u] == s.pcs[u] && CollectorOk(s, u)
    requires s'.size == s.size && s'.me == s.me && s'.bound == s.bound && s'.freed == s.freed && s'.heads == s.heads
    requires |s.hist| <= |s'.hist| && forall k: nat | k < |s.hist| :: s'.hist[k].buf == s.hist[k].buf
    ensures CollectorOk(s', u)
  {
  }

  lemma MutexStep(s: State, t: nat, a: Action, u: nat)
    requires s.Shape() && t < |s.pcs| && ProducePossible(s, s.pcs[t], a) && u < |s.pcs|
    requires HoldsGc(s.pcs[t]) <==> s.gcMtx == By(t)
    requires HoldsGc(s.pcs[u]) <==> s.gcMtx == By(u)
    ensures var s' := ApplyProduce(s, t, a); HoldsGc(s'.pcs[u]) <==> s'.gcMtx == By(u)
  {
  }

  /** The slot the collector reads still shows the oldest log that was not freed: no producer that took a
      buffer freed earlier in the same loop can have reused it. */
  lemma CollectedIsCommitted(s: State, t: nat)
    requires Conservation(s) && GcOk(s) && ReadersOk(s) && PubOk(s)
    requires t < |s.pcs| && s.pcs[t].Freeing? && s.pcs[t].i != s.pcs[t].newB
    ensures s.freed < |s.hist| && s.hist[s.freed].done
    ensures s.pub[SlotOf(s.pcs[t].i, s.size)].log == s.hist[s.freed].buf
  {
    assert CollectorOk(s, t);
    var n := if s.me == 0 then 1 else 0;
    assert ReaderOk(s, n);
    assert RecOk(s, s.freed);
    assert SlotOf(s.pcs[t].i, s.size) == SlotOf(s.freed, s.size);
  }

  lemma OtherCollector(s: State, t: nat, a: Action, u: nat)
    requires s.Shape() && t < |s.pcs| && ProducePossible(s, s.pcs[t], a) && u < |s.pcs| && u != t && CollectorOk(s, u)
    requires !(HoldsGc(s.pcs[t]) && HoldsGc(s.pcs[u]))
    ensures CollectorOk(ApplyProduce(s, t, a), u)
  {
    if HoldsGc(s.pcs[u]) {
      NonHolderFrame(s, t, a);
      CollectorFrame(s, ApplyProduce(s, t, a), u);
    }
  }

  lemma MutexFree(s: State, t: nat, a: Action)
    requires s.Shape() && t < |s.pcs| && ProducePossible(s, s.pcs[t], a) && CollectorOk(s, t)
    requires s.gcMtx.Nobody? ==> s.bound == s.freed + s.size
    requires HoldsGc(s.pcs[t]) <==> s.gcMtx == By(t)
    ensures var s' := ApplyProduce(s, t, a);
            && (s'.gcMtx.Nobody? ==> s'.bound == s'.freed + s'.size)
            && (s'.gcMtx == s.gcMtx || s'.gcMtx.Nobody? || s'.gcMtx == By(t))
            && s'.Shape() && |s'.pcs| == |s.pcs|
  {
  }

  lemma ProduceGc(s: State, t: nat, a: Action)
    requires Conservation(s) && GcOk(s) && ReadersOk(s) && PubOk(s) && t < |s.pcs| && ProducePossible(s, s.pcs[t], a)
    ensures GcOk(ApplyProduce(s, t, a))
  {
    CollectorStep(s, t, a);
    GcSteps(s, t, a);
  }

  lemma GcSteps(s: State, t: nat, a: Action)
    requires GcOk(s) && t < |s.pcs| && ProducePossible(s, s.pcs[t], a)
    requires CollectorOk(ApplyProduce(s, t, a), t)
    ensures GcOk(ApplyProduce(s, t, a))
  {
    var s' := ApplyProduce(s, t, a);
    assert CollectorOk(s, t) && (HoldsGc(s.pcs[t]) <==> s.gcMtx == By(t));
    MutexFree(s, t, a);
    forall u: nat | u < |s.pcs| ensures (HoldsGc(s'.pcs[u]) <==> s'.gcMtx == By(u)) && CollectorOk(s', u) {
      assert CollectorOk(s, u) && (HoldsGc(s.pcs[u]) <==> s.gcMtx == By(u));
      MutexStep(s, t, a, u);
      if u != t {
        OtherCollector(s, t, a, u);
      }
    }
  }

  // ---- the published entries ----

  /** The collector frees only a log that every subscriber has consumed. */
  lemma FreedIsDone(s: State, t: nat)
    requires GcOk(s) && ReadersOk(s) && t < |s.pcs| && s.pcs[t].Fetched?
    ensures s.freed < |s.hist| && s.hist[s.freed].done
    ensures forall n: nat | n < |s.heads| && n != s.me :: s.freed < s.heads[n]
  {
    assert CollectorOk(s, t);
    var n := if s.me == 0 then 1 else 0;
    assert ReaderOk(s, n);
  }

  lemma WindowSlots(s: State, k: nat, l: nat)
    requires Conservation(s) && s.freed <= k < |s.hist| && s.freed <= l < |s.hist| && k != l
    ensures SlotOf(k, s.size) != SlotOf(l, s.size)
  {
    if k < l {
      SlotsDiffer(k, l, s.size);
    } else {
      SlotsDiffer(l, k, s.size);
    }
  }

  ghost predicate StoresPub(a: Action) {
    a.StoreRel? || a.StoreLog? || a.StoreIdx?
  }

  lemma RecPubStep(s: State, t: nat, a: Action, k: nat)
    requires Conservation(s) && PubOk(s) && t < |s.pcs| && ProducePossible(s, s.pcs[t], a) && StoresPub(a)
    requires k < |s.hist|
    ensures RecOk(ApplyProduce(s, t, a), k)
  {
    assert RecOk(s, k) && OpenOk(s, t);
    if s.freed <= k && k != s.pcs[t].k {
      WindowSlots(s, k, s.pcs[t].k);
    }
  }

  /** Steps that neither store to a slot nor write to a buffer. */
  lemma RecOther(s: State, t: nat, a: Action, k: nat)
    requires s.Shape() && t < |s.pcs| && ProducePossible(s, s.pcs[t], a) && k < |s.hist| && RecOk(s, k)
    requires !StoresPub(a) && !a.Reset? && !a.Write?
    requires a.FreeOne? ==> s.freed < |s.hist| && s.hist[s.freed].done
    ensures RecOk(ApplyProduce(s, t, a), k)
  {
  }

  /** Resetting or writing a buffer that the producer holds: it is none of the window. */
  lemma RecWrite(s: State, t: nat, a: Action, k: nat)
    requires s.Shape() && t < |s.pcs| && ProducePossible(s, s.pcs[t], a) && k < |s.hist| && RecOk(s, k)
    requires a.Reset? || a.Write?
    requires s.freed <= k ==> s.hist[k].buf != s.pcs[t].b
    ensures RecOk(ApplyProduce(s, t, a), k)
  {
  }

  lemma RecStep(s: State, t: nat, a: Action, k: nat)
    requires Conservation(s) && GcOk(s) && ReadersOk(s) && PubOk(s) && t < |s.pcs| && ProducePossible(s, s.pcs[t], a)
    requires k < |s.hist| && !StoresPub(a)
    ensures RecOk(ApplyProduce(s, t, a), k)
  {
    assert RecOk(s, k);
    if a.Reset? || a.Write? {
      assert HeldBuffer(s.pcs[t]) == Buffer(s.pcs[t].b);
      assert s.freed <= k ==> s.place[s.hist[k].buf] == At(k);
      RecWrite(s, t, a, k);
    } else {
      if a.FreeOne? {
        FreedIsDone(s, t);
      }
      RecOther(s, t, a, k);
    }
  }

  lemma NewRec(s: State, t: nat, rel: bool)
    requires Conservation(s) && PubOk(s) && t < |s.pcs| && s.pcs[t].Writing? && s.pcs[t].b < s.size
    ensures var s' := ApplyProduce(s, t, Claim(rel)); RecOk(s', |s.hist|) && OpenOk(s', t)
  {
  }

  lemma OpenPubStep(s: State, t: nat, a: Action, u: nat)
    requires Conservation(s) && PubOk(s) && t < |s.pcs| && ProducePossible(s, s.pcs[t], a) && StoresPub(a)
    requires u < |s.pcs|
    ensures OpenOk(ApplyProduce(s, t, a), u)
  {
    assert OpenOk(s, u) && OpenOk(s, t);
    if u != t && Open(s.pcs[u]) {
      WindowSlots(s, s.pcs[u].k, s.pcs[t].k);
    }
  }

  lemma OpenStep(s: State, t: nat, a: Action, u: nat)
    requires s.Shape() && t < |s.pcs| && ProducePossible(s, s.pcs[t], a) && u < |s.pcs| && OpenOk(s, u)
    requires !a.Claim? && !StoresPub(a)
    requires a.FreeOne? ==> s.freed < |s.hist| && s.hist[s.freed].done
    ensures OpenOk(ApplyProduce(s, t, a), u)
  {
  }

  lemma IdxStep(s: State, t: nat, a: Action, j: nat)
    requires Conservation(s) && PubOk(s) && t < |s.pcs| && ProducePossible(s, s.pcs[t], a) && j < s.size
    ensures IdxOk(ApplyProduce(s, t, a), j)
  {
    assert IdxOk(s, j) && OpenOk(s, t);
  }

  lemma ProducePub(s: State, t: nat, a: Action)
    requires Conservation(s) && GcOk(s) && ReadersOk(s) && PubOk(s) && t < |s.pcs| && ProducePossible(s, s.pcs[t], a)
    ensures PubOk(ApplyProduce(s, t, a))
  {
    var s' := ApplyProduce(s, t, a);
    forall k: nat | k < |s'.hist| ensures RecOk(s', k) {
      if k < |s.hist| && StoresPub(a) {
        RecPubStep(s, t, a, k);
      } else if k < |s.hist| {
        RecStep(s, t, a, k);
      } else {
        NewRec(s, t, a.rel);
      }
    }
    forall u: nat | u < |s.pcs| ensures OpenOk(s', u) {
      assert OpenOk(s, u);
      if StoresPub(a) {
        OpenPubStep(s, t, a, u);
      } else if !a.Claim? {
        if a.FreeOne? {
          FreedIsDone(s, t);
        }
        OpenStep(s, t, a, u);
      } else if u == t {
        NewRec(s, t, a.rel);
      }
    }
    forall j: nat | j < s.size ensures IdxOk(s', j) {
      IdxStep(s, t, a, j);
    }
  }

  // ---- consumers ----

  /** A committed log stays as it is; only a free moves the window, past the heads at most. */
  lemma ProduceFrame(s: State, t: nat, a: Action)
    requires s.Shape() && t < |s.pcs| && ProducePossible(s, s.pcs[t], a)
    ensures var s' := ApplyProduce(s, t, a);
            && s'.Shape() && s'.heads == s.heads && s'.readers == s.readers && s'.delivered == s.delivered
            && s'.me == s.me && s'.freed == (if a.FreeOne? then s.freed + 1 else s.freed) && |s.hist| <= |s'.hist|
            && (forall k: nat | k < |s.hist| ::
                  && s'.hist[k].log == s.hist[k].log && s'.hist[k].buf == s.hist[k].buf
                  && (s.hist[k].done ==> s'.hist[k].done))
  {
  }

  lemma ReaderFrame(s: State, s': State, n: nat)
    requires s.Shape() && s'.Shape() && n < |s.heads| && ReaderOk(s, n)
    requires s'.heads == s.heads && s'.readers == s.readers && s'.delivered == s.delivered
    requires s'.freed <= s.heads[n] && |s.hist| <= |s'.hist|
    requires forall k: nat | k < |s.hist| ::
               && s'.hist[k].log == s.hist[k].log && s'.hist[k].buf == s.hist[k].buf
               && (s.hist[k].done ==> s'.hist[k].done)
    ensures ReaderOk(s', n)
  {
  }

  lemma ProduceReaders(s: State, t: nat, a: Action)
    requires Conservation(s) && GcOk(s) && ReadersOk(s) && PubOk(s) && t < |s.pcs| && ProducePossible(s, s.pcs[t], a)
    ensures ReadersOk(ApplyProduce(s, t, a))
  {
    if a.FreeOne? {
      FreedIsDone(s, t);
    }
    ProduceFrame(s, t, a);
    forall n: nat | n < |s.heads| && n != s.me ensures ReaderOk(ApplyProduce(s, t, a), n) {
      assert ReaderOk(s, n);
      ReaderFrame(s, ApplyProduce(s, t, a), n);
    }
  }

  lemma ReadOk(s: State, n: nat, r: ReadAction)
    requires Conservation(s) && ReadersOk(s) && PubOk(s) && n < |s.heads| && n != s.me && ReadPossible(s, n, r)
    ensures ReaderOk(ApplyRead(s, n, r), n)
  {
    assert ReaderOk(s, n);
    var h := s.heads[n];
    match r
    case Take => assert IdxOk(s, SlotOf(h, s.size));
    case LoadEntry => assert RecOk(s, h);
    case ReadItem => assert RecOk(s, h);
    case Consume => assert s.readers[n].got == s.hist[h].log.items;
  }

  lemma ReadConserves(s: State, n: nat, r: ReadAction)
    requires Conservation(s) && PubOk(s) && n < |s.heads| && ReadPossible(s, n, r)
    ensures Conservation(ApplyRead(s, n, r)) && PubOk(ApplyRead(s, n, r))
  {
    var s' := ApplyRead(s, n, r);
    forall b: nat | b < s.size ensures PlaceOk(s', b) { assert PlaceOk(s, b); }
    forall t: nat | t < |s.pcs| ensures OpenOk(s', t) { assert OpenOk(s, t); }
    forall k: nat | k < |s.hist| ensures RecOk(s', k) { assert RecOk(s, k); }
    forall j: nat | j < s.size ensures IdxOk(s', j) { assert IdxOk(s, j); }
  }

  lemma ReadGc(s: State, n: nat, r: ReadAction)
    requires GcOk(s) && n < |s.heads| && ReadPossible(s, n, r)
    ensures GcOk(ApplyRead(s, n, r))
  {
    var s' := ApplyRead(s, n, r);
    forall t: nat | t < |s.pcs| ensures (HoldsGc(s'.pcs[t]) <==> s'.gcMtx == By(t)) && CollectorOk(s', t) {
      assert (HoldsGc(s.pcs[t]) <==> s.gcMtx == By(t)) && CollectorOk(s, t);
    }
  }

  lemma OtherReader(s: State, n: nat, r: ReadAction, m: nat)
    requires s.Shape() && n < |s.heads| && ReadPossible(s, n, r) && m < |s.heads| && m != n && ReaderOk(s, m)
    ensures ReaderOk(ApplyRead(s, n, r), m)
  {
  }

  lemma ReadKeeps(s: State, n: nat, r: ReadAction)
    requires Inv(s) && n < |s.heads| && n != s.me && ReadPossible(s, n, r)
    ensures Inv(ApplyRead(s, n, r))
  {
    ReadConserves(s, n, r);
    ReadGc(s, n, r);
    forall m: nat | m < |s.heads| && m != s.me ensures ReaderOk(ApplyRead(s, n, r), m) {
      if m == n {
        ReadOk(s, n, r);
      } else {
        assert ReaderOk(s, m);
        OtherReader(s, n, r, m);
      }
    }
  }

  lemma StepKeepsInv(s: State, step: Step)
    requires Inv(s) && Possible(s, step)
    ensures Inv(Apply(s, step))
  {
    match step
    case Produce(t, a) =>
      ProduceConserves(s, t, a);
      ProduceGc(s, t, a);
      ProducePub(s, t, a);
      ProduceReaders(s, t, a);
    case Read(n, r) => ReadKeeps(s, n, r);
  }
}
