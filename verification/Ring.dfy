/**
 The log ring of one node, with reclamation of its buffers: producers take a buffer from the freelist,
 fill it, reserve a slot and commit it; the subscribers of the other nodes read the slots in order; and a
 producer that finds the freelist empty collects, under the collection mutex, the buffers every subscriber
 has passed.  All of these interleave.  Here the freelist is a FIFO queue and the mutex is atomic; the
 modules Freelist and McsLock are about those.
 */
module Ring {
  import opened Broadcast
  import opened Pigeonhole

  type Item = nat                                  // one log entry

  datatype PubEntry = PubEntry(log: nat, idx: nat, isRel: bool)

  datatype Buffer = NoBuffer | Buffer(b: nat)

  /** Where a producer is in get_new_log, perform_gc, its own writing, and produce_tail. */
  datatype Pc =
    | Wanting                                      // before the first dequeue
    | NeedLock                                     // freelist was empty, before gc_mtx.lock
    | Locked                                       // before the second dequeue
    | Scanning(n: nat, newB: nat)                  // reading the heads, next is node n
    | Freeing(i: nat, newB: nat)                   // freeing loop, at index i
    | Fetched(i: nat, newB: nat, b: nat)           // has read the slot of i, before the enqueue
    | LastTry                                      // bound stored, before the third dequeue
    | Unlocking(got: Buffer)                       // before gc_mtx.unlock
    | Fresh(b: nat)                                // has a buffer, size not yet reset
    | Writing(b: nat)
    | Claimed(b: nat, k: nat, rel: bool)           // tail.fetch_add done
    | Marked(b: nat, k: nat, rel: bool)            // is_rel stored
    | Linked(b: nat, k: nat, rel: bool)            // log stored

  /** Where the consumer of a node is: take_head, reading entry->log and is_rel, then the entries one by one. */
  datatype Reader = Looking | Taken | Reading(b: nat, rel: bool, size: nat, got: seq<Item>)

  datatype Owner = Nobody | By(t: nat)

  // ---- history variables ----

  datatype Rec = Rec(buf: nat, log: Log<seq<Item>>, author: nat, done: bool)

  datatype Place = InFreelist | With(t: nat) | At(k: nat)

  datatype State = State(
    size: nat, me: nat,
    pub: seq<PubEntry>, tail: nat, heads: seq<nat>, bound: nat, gcMtx: Owner, free: seq<nat>, bufs: seq<seq<Item>>,
    pcs: seq<Pc>, readers: seq<Reader>,
    // history: all logs ever produced, how many buffers were ever enqueued by collections, where each
    // buffer is, and what each node has consumed
    hist: seq<Rec>, freed: nat, place: seq<Place>, delivered: seq<seq<Log<seq<Item>>>>)
  {
    ghost predicate Shape() {
      && size > 0 && |pub| == size && |bufs| == size && |place| == size
      && |readers| == |heads| == |delivered| && tail == |hist|
    }

    /** The ring as the Broadcast module describes it. */
    ghost function Slots(): seq<Slot<seq<Item>>> {
      seq(|hist|, k requires 0 <= k < |hist| => if hist[k].done then Committed(hist[k].log) else Reserved)
    }
  }

  datatype Action =
    | TryFirst | LockGc | TrySecond | ScanNode | EndScan | ReadSlot | FreeOne | EndGc | TryThird | UnlockGc
    | Reset | Write(e: Item) | Claim(rel: bool) | StoreRel | StoreLog | StoreIdx

  datatype ReadAction = Take | LoadEntry | ReadItem | Consume

  datatype Step = Produce(t: nat, a: Action) | Read(n: nat, r: ReadAction)

  // ---- steps of a producer ----

  ghost predicate Possible(s: State, step: Step)
    requires s.Shape()
  {
    match step
    case Produce(t, a) => t < |s.pcs| && ProducePossible(s, s.pcs[t], a)
    case Read(n, r) => n < |s.heads| && n != s.me && ReadPossible(s, n, r)
  }

  ghost predicate ProducePossible(s: State, pc: Pc, a: Action)
    requires s.Shape()
  {
    match a
    case TryFirst => pc.Wanting?
    case LockGc => pc.NeedLock? && s.gcMtx.Nobody?
    case TrySecond => pc.Locked?
    case ScanNode => pc.Scanning? && pc.n < |s.heads|
    case EndScan => pc.Scanning? && pc.n >= |s.heads|
    case ReadSlot => pc.Freeing? && pc.i != pc.newB
    case FreeOne => pc.Fetched? && pc.b < s.size
    case EndGc => pc.Freeing? && pc.i == pc.newB
    case TryThird => pc.LastTry?
    case UnlockGc => pc.Unlocking?
    case Reset => pc.Fresh? && pc.b < s.size
    case Write(e) => pc.Writing? && pc.b < s.size
    case Claim(rel) => pc.Writing? && pc.b < s.size
    case StoreRel => pc.Claimed?
    case StoreLog => pc.Marked?
    case StoreIdx => pc.Linked? && pc.k < |s.hist|
  }

  function WithPc(s: State, t: nat, pc: Pc): State
    requires t < |s.pcs|
  {
    s.(pcs := s.pcs[t := pc])
  }

  /** freelist.dequeue, and what the caller does with the answer. */
  ghost function Dequeue(s: State, t: nat, underLock: bool, failed: Pc): State
    requires s.Shape() && t < |s.pcs|
  {
    if s.free == [] || s.free[0] >= s.size then WithPc(s, t, failed)
    else
      var b := s.free[0];
      WithPc(s, t, if underLock then Unlocking(Buffer(b)) else Fresh(b))
        .(free := s.free[1..], place := s.place[b := With(t)])
  }

  /** One iteration of the first loop of perform_gc. */
  ghost function Scan(s: State, pc: Pc): Pc
    requires pc.Scanning? && pc.n < |s.heads|
  {
    if pc.n == s.me then Scanning(pc.n + 1, pc.newB)
    else
      var h := s.heads[pc.n] + s.size;
      Scanning(pc.n + 1, if h < pc.newB && h >= s.bound then h else pc.newB)
  }

  ghost function UpdatePub(s: State, k: nat, e: PubEntry): State
    requires s.Shape()
  {
    s.(pub := s.pub[SlotOf(k, s.size) := e])
  }

  ghost function ApplyProduce(s: State, t: nat, a: Action): State
    requires s.Shape() && t < |s.pcs| && ProducePossible(s, s.pcs[t], a)
  {
    var pc := s.pcs[t];
    match a
    case TryFirst => Dequeue(s, t, false, NeedLock)
    case LockGc => WithPc(s, t, Locked).(gcMtx := By(t))
    case TrySecond => Dequeue(s, t, true, Scanning(0, s.bound + s.size))
    case ScanNode => WithPc(s, t, Scan(s, pc))
    case EndScan => WithPc(s, t, Freeing(s.bound, pc.newB))
    case ReadSlot => WithPc(s, t, Fetched(pc.i, pc.newB, s.pub[SlotOf(pc.i, s.size)].log))
    case FreeOne =>
      WithPc(s, t, Freeing(pc.i + 1, pc.newB))
        .(free := s.free + [pc.b], freed := s.freed + 1, place := s.place[pc.b := InFreelist])
    case EndGc => WithPc(s, t, LastTry).(bound := pc.newB)
    case TryThird => Dequeue(s, t, true, Unlocking(NoBuffer))
    case UnlockGc =>
      WithPc(s, t, if pc.got.NoBuffer? then Wanting else Fresh(pc.got.b)).(gcMtx := Nobody)
    case Reset => WithPc(s, t, Writing(pc.b)).(bufs := s.bufs[pc.b := []])
    case Write(e) => s.(bufs := s.bufs[pc.b := s.bufs[pc.b] + [e]])
    case Claim(rel) =>
      WithPc(s, t, Claimed(pc.b, s.tail, rel))
        .(tail := s.tail + 1, hist := s.hist + [Rec(pc.b, Log(s.bufs[pc.b], rel), t, false)],
          place := s.place[pc.b := At(s.tail)])
    case StoreRel =>
      UpdatePub(WithPc(s, t, Marked(pc.b, pc.k, pc.rel)), pc.k, s.pub[SlotOf(pc.k, s.size)].(isRel := pc.rel))
    case StoreLog =>
      UpdatePub(WithPc(s, t, Linked(pc.b, pc.k, pc.rel)), pc.k, s.pub[SlotOf(pc.k, s.size)].(log := pc.b))
    case StoreIdx =>
      UpdatePub(WithPc(s, t, Wanting), pc.k, s.pub[SlotOf(pc.k, s.size)].(idx := pc.k + 1))
        .(hist := s.hist[pc.k := s.hist[pc.k].(done := true)])
  }

  // ---- steps of a consumer ----

  ghost predicate ReadPossible(s: State, n: nat, r: ReadAction)
    requires s.Shape() && n < |s.heads|
  {
    match r
    case Take => s.readers[n].Looking?
    case LoadEntry => s.readers[n].Taken? && s.pub[SlotOf(s.heads[n], s.size)].log < s.size
    case ReadItem =>
      s.readers[n].Reading? && |s.readers[n].got| < s.readers[n].size && s.readers[n].b < s.size
      && |s.readers[n].got| < |s.bufs[s.readers[n].b]|
    case Consume => s.readers[n].Reading? && |s.readers[n].got| >= s.readers[n].size
  }

  ghost function ApplyRead(s: State, n: nat, r: ReadAction): State
    requires s.Shape() && n < |s.heads| && ReadPossible(s, n, r)
  {
    var h := s.heads[n];
    var reader := s.readers[n];
    match r
    case Take => s.(readers := s.readers[n := if s.pub[SlotOf(h, s.size)].idx == h + 1 then Taken else Looking])
    case LoadEntry =>
      var e := s.pub[SlotOf(h, s.size)];
      s.(readers := s.readers[n := Reading(e.log, e.isRel, |s.bufs[e.log]|, [])])
    case ReadItem =>
      s.(readers := s.readers[n := reader.(got := reader.got + [s.bufs[reader.b][|reader.got|]])])
    case Consume =>
      s.(heads := s.heads[n := h + 1], readers := s.readers[n := Looking],
         delivered := s.delivered[n := s.delivered[n] + [Log(reader.got, reader.rel)]])
  }

  ghost function Apply(s: State, step: Step): State
    requires s.Shape() && Possible(s, step)
  {
    match step
    case Produce(t, a) => ApplyProduce(s, t, a)
    case Read(n, r) => ApplyRead(s, n, r)
  }

  // ---- the invariant ----

  ghost function HeldBuffer(pc: Pc): Buffer {
    match pc
    case Unlocking(got) => got
    case Fresh(b) => Buffer(b)
    case Writing(b) => Buffer(b)
    case _ => NoBuffer
  }

  ghost predicate HoldsGc(pc: Pc) {
    pc.Locked? || pc.Scanning? || pc.Freeing? || pc.Fetched? || pc.LastTry? || pc.Unlocking?
  }

  ghost predicate Open(pc: Pc) {
    pc.Claimed? || pc.Marked? || pc.Linked?
  }

  /** Exactly one place for each buffer. */
  ghost predicate PlaceOk(s: State, b: nat)
    requires s.Shape() && b < s.size
  {
    match s.place[b]
    case InFreelist => b in s.free
    case With(t) => t < |s.pcs| && HeldBuffer(s.pcs[t]) == Buffer(b)
    case At(k) => s.freed <= k < |s.hist| && s.hist[k].buf == b
  }

  ghost predicate Conservation(s: State) {
    && s.Shape()
    && (forall b: nat | b < s.size :: PlaceOk(s, b))
    && Distinct(s.free)
    && (forall i: nat | i < |s.free| :: s.free[i] < s.size && s.place[s.free[i]] == InFreelist)
    && (forall t: nat | t < |s.pcs| && HeldBuffer(s.pcs[t]).Buffer? ::
          HeldBuffer(s.pcs[t]).b < s.size && s.place[HeldBuffer(s.pcs[t]).b] == With(t))
    && (forall k: nat | s.freed <= k < |s.hist| :: s.hist[k].buf < s.size && s.place[s.hist[k].buf] == At(k))
    && s.freed <= |s.hist| <= s.freed + s.size
  }

  /** What the collector has computed so far is safe to free. */
  ghost predicate CollectorOk(s: State, t: nat)
    requires s.Shape() && t < |s.pcs|
  {
    match s.pcs[t]
    case Scanning(n, newB) =>
      s.bound == s.freed + s.size && s.bound <= newB <= s.bound + s.size
      && forall m: nat | m < n && m < |s.heads| && m != s.me :: newB <= s.heads[m] + s.size
    case Freeing(i, newB) => Sweeping(s, i, newB)
    case Fetched(i, newB, b) => Sweeping(s, i, newB) && i < newB && s.freed < |s.hist| && b == s.hist[s.freed].buf
    case _ => HoldsGc(s.pcs[t]) ==> s.bound == s.freed + s.size
  }

  ghost predicate Sweeping(s: State, i: nat, newB: nat) {
    i == s.freed + s.size && s.bound <= i <= newB <= s.bound + s.size
    && forall m: nat | m < |s.heads| && m != s.me :: newB <= s.heads[m] + s.size
  }

  ghost predicate GcOk(s: State) {
    && s.Shape()
    && (s.gcMtx.Nobody? ==> s.bound == s.freed + s.size)
    && (forall t: nat | t < |s.pcs| :: (HoldsGc(s.pcs[t]) <==> s.gcMtx == By(t)) && CollectorOk(s, t))
    && (s.gcMtx.By? ==> s.gcMtx.t < |s.pcs|)
  }

  /** A produced log of the current window, as memory shows it. */
  ghost predicate RecOk(s: State, k: nat)
    requires s.Shape() && k < |s.hist|
  {
    var rec := s.hist[k];
    && (s.freed <= k && rec.buf < s.size ==> s.bufs[rec.buf] == rec.log.items)
    && (s.freed <= k && rec.done ==> s.pub[SlotOf(k, s.size)] == PubEntry(rec.buf, k + 1, rec.log.rel))
    && (!rec.done ==> s.freed <= k && rec.author < |s.pcs| && Open(s.pcs[rec.author]) && s.pcs[rec.author].k == k)
  }

  ghost predicate OpenOk(s: State, t: nat)
    requires s.Shape() && t < |s.pcs|
  {
    var pc := s.pcs[t];
    Open(pc) ==>
      && s.freed <= pc.k < |s.hist| && !s.hist[pc.k].done
      && s.hist[pc.k].buf == pc.b && s.hist[pc.k].author == t && s.hist[pc.k].log.rel == pc.rel
      && (pc.Marked? || pc.Linked? ==> s.pub[SlotOf(pc.k, s.size)].isRel == pc.rel)
      && (pc.Linked? ==> s.pub[SlotOf(pc.k, s.size)].log == pc.b)
  }

  /** An index found in a slot names a log that was committed there. */
  ghost predicate IdxOk(s: State, j: nat)
    requires s.Shape() && j < s.size
  {
    var idx := s.pub[j].idx;
    idx == 0 || (idx <= |s.hist| && s.hist[idx - 1].done && SlotOf(idx - 1, s.size) == j)
  }

  ghost predicate PubOk(s: State) {
    && s.Shape()
    && (forall k: nat | k < |s.hist| :: RecOk(s, k))
    && (forall t: nat | t < |s.pcs| :: OpenOk(s, t))
    && (forall j: nat | j < s.size :: IdxOk(s, j))
  }

  ghost predicate ReaderOk(s: State, n: nat)
    requires s.Shape() && n < |s.heads|
  {
    var h := s.heads[n];
    && s.freed <= h <= |s.hist|
    && (forall k: nat | k < h :: s.hist[k].done)
    && (!s.readers[n].Looking? ==> h < |s.hist| && s.hist[h].done)
    && (s.readers[n].Reading? ==>
          var rec := s.hist[h];
          var r := s.readers[n];
          r.b == rec.buf && r.rel == rec.log.rel && r.size == |rec.log.items| && r.got <= rec.log.items)
    && |s.delivered[n]| == h
    && (forall k: nat | k < h :: s.delivered[n][k] == s.hist[k].log)
  }

  ghost predicate ReadersOk(s: State) {
    && s.Shape()
    && s.me < |s.heads| && |s.heads| >= 2          // at least one other node subscribes
    && forall n: nat | n < |s.heads| && n != s.me :: ReaderOk(s, n)
  }

  ghost predicate Inv(s: State) {
    Conservation(s) && GcOk(s) && PubOk(s) && ReadersOk(s)
  }
}
