/**
 Happens-before.  Each thread's stores are numbered, and vector clocks of happens-before (here: how many
 stores of each thread are known) ride along with the protocol: they are copied to a location by a release
 and joined by an acquire, where what is known of other nodes counts as far as the acquire has waited for it.
 That is all of it unless somebody writes to the location meanwhile (RaceFreedom.AcquireJoinsAll).  They are
 history variables that the protocol never reads.
 */
module HappensBefore {
  import opened Clocks
  import opened Broadcast
  import opened Protocol
  import opened Progress
  import opened Threads
  import opened Waiting
  import opened Coherence

  // Which thread wrote a slot of a ring, and which of its stores the log stands for.
  datatype Mark = Mark(author: nat, from: nat, upto: nat)

  // stores: the lines stored so far, in order; flushed: how many of them are in committed logs;
  // hb[u]: how many stores of thread u happen before this thread's next access;
  // target, waited: the same for the location clock being acquired.
  datatype History = History(stores: seq<Line>, flushed: nat, hb: seq<nat>, target: seq<nat>, waited: seq<nat>)

  datatype Trace = Trace(ths: seq<History>, marks: seq<seq<Mark>>, locs: seq<seq<nat>>)

  function Min(a: nat, b: nat): nat {
    if a < b then a else b
  }

  ghost function LinesOf(stores: seq<Line>, from: nat, upto: nat): set<Line>
    requires upto <= |stores|
  {
    set m: nat | from <= m < upto :: stores[m]
  }

  ghost predicate Sized(s: State, g: Trace) {
    && s.WF()
    && |g.ths| == |s.threads| && |g.marks| == |s.rings| && |g.locs| == |s.locs|
    && (forall t: nat | t < |g.ths| ::
          |g.ths[t].hb| == |s.threads| && |g.ths[t].target| == |s.threads| && |g.ths[t].waited| == |s.threads|)
    && (forall x: nat | x < |g.locs| :: |g.locs[x]| == |s.threads|)
    && (forall i: nat | i < |g.marks| :: |g.marks[i]| == |s.rings[i]|)
  }

  // ---- how the histories move ----

  /** The happens-before component that goes with Wanted. */
  ghost function WantedHb(s: State, g: Trace, t: nat, u: nat): nat
    requires Sized(s, g) && t < |s.threads| && u < |s.threads|
    requires s.threads[t].pc.Acquiring? || s.threads[t].pc.Merging?
  {
    if s.threads[t].pc.byRef then g.locs[s.threads[t].pc.loc][u] else g.ths[t].target[u]
  }

  ghost function Waits(s: State, g: Trace, t: nat, i: nat): History
    requires Sized(s, g) && t < |s.threads| && s.threads[t].pc.Acquiring?
  {
    var h := g.ths[t];
    h.(waited := seq(|s.threads|, u requires 0 <= u < |s.threads| =>
      if s.threads[u].node == i then WantedHb(s, g, t, u) else h.waited[u]))
  }

  /** What one merged element tells the thread: a component of another node counts only as far as it was waited for. */
  ghost function Joined(s: State, g: Trace, t: nat, u: nat): nat
    requires Sized(s, g) && t < |s.threads| && u < |s.threads| && s.threads[t].pc.Merging?
  {
    if s.threads[u].node == s.threads[t].node then WantedHb(s, g, t, u)
    else Min(g.ths[t].waited[u], WantedHb(s, g, t, u))
  }

  ghost function Joins(s: State, g: Trace, t: nat, j: nat): History
    requires Sized(s, g) && t < |s.threads| && s.threads[t].pc.Merging?
  {
    var h := g.ths[t];
    h.(hb := seq(|s.threads|, u requires 0 <= u < |s.threads| =>
      if s.threads[u].node == j then Max(h.hb[u], Joined(s, g, t, u)) else h.hb[u]))
  }

  /** What thread t knows of thread u when it publishes: all its own flushed stores. */
  function Known(g: Trace, t: nat, u: nat): nat
    requires t < |g.ths| && u < |g.ths[t].hb|
  {
    if u == t then g.ths[t].flushed else g.ths[t].hb[u]
  }

  ghost function Published(s: State, g: Trace, t: nat, x: nat, i: nat, merge: bool): seq<nat>
    requires Sized(s, g) && t < |s.threads| && x < |s.locs|
  {
    seq(|s.threads|, u requires 0 <= u < |s.threads| =>
      if s.threads[u].node != i then g.locs[x][u]
      else if merge then Max(g.locs[x][u], Known(g, t, u)) else Known(g, t, u))
  }

  ghost function WithHistory(g: Trace, t: nat, h: History): Trace
    requires t < |g.ths|
  {
    g.(ths := g.ths[t := h])
  }

  ghost function TrackThread(s: State, g: Trace, t: nat, a: ThreadStep): Trace
    requires Sized(s, g) && t < |s.threads| && ThreadPossible(s, t, a)
  {
    var h := g.ths[t];
    var n := s.threads[t].node;
    match a
    case Store(l, w, v) => WithHistory(g, t, h.(stores := h.stores + [l]))
    case Reserve => g.(marks := g.marks[n := g.marks[n] + [Mark(t, h.flushed, |h.stores|)]])
    case Commit => WithHistory(g, t, h.(flushed := |h.stores|))
    case Publish(x, i, merge) => g.(locs := g.locs[x := Published(s, g, t, x, i, merge)])
    case BeginAcquire(x, byRef) => WithHistory(g, t, h.(target := g.locs[x], waited := Zero(|s.threads|)))
    case CheckNode(i) => WithHistory(g, t, Waits(s, g, t, i))
    case MergeElement => WithHistory(g, t, Joins(s, g, t, s.threads[t].pc.j))
    case _ => g
  }

  ghost function Track(s: State, g: Trace, step: Step): Trace
    requires Sized(s, g) && Possible(s, step)
  {
    match step
    case ByCache(n, c) => g
    case ByThread(t, a) => TrackThread(s, g, t, a)
    case ByConsumer(n, b) =>
      if b.Leave? && s.nodes[n].cons.who.Helper?
      then WithHistory(g, s.nodes[n].cons.who.t, Waits(s, g, s.nodes[n].cons.who.t, s.nodes[n].cons.ring))
      else g
  }

  // ---- race freedom in terms of happens-before ----

  /** Every store to the line by a thread of another node happens before the next access of thread t. */
  ghost predicate HbRaceFree(s: State, g: Trace, t: nat, l: Line)
    requires Sized(s, g) && t < |s.threads|
  {
    forall u: nat, m: nat | u < |s.threads| && s.threads[u].node != s.threads[t].node && m < |g.ths[u].stores| ::
      g.ths[u].stores[m] == l ==> m < g.ths[t].hb[u]
  }

  // ---- the invariant ----

  /** Slot k of the ring of u's node is a log of u that stands for some of its first b stores. */
  ghost predicate LogOf(s: State, g: Trace, u: nat, k: nat, b: nat)
    requires Sized(s, g) && u < |s.threads|
  {
    && k < |g.marks[s.threads[u].node]|
    && g.marks[s.threads[u].node][k].author == u && g.marks[s.threads[u].node][k].from < b
  }

  /** Clock component v covers every log of u that stands for any of its first b stores. */
  ghost predicate Carries(s: State, g: Trace, u: nat, v: nat, b: nat)
    requires Sized(s, g) && u < |s.threads|
  {
    b <= g.ths[u].flushed && forall k: nat | LogOf(s, g, u, k, b) :: k < v
  }

  ghost predicate LocCarries(s: State, g: Trace, x: nat, u: nat)
    requires Sized(s, g) && x < |s.locs| && u < |s.threads|
  {
    Carries(s, g, u, s.locs[x][s.threads[u].node], g.locs[x][u])
  }

  /** All clocks of a thread, paired with what they claim to know of thread u, are truthful. */
  ghost predicate RecordCarries(s: State, g: Trace, th: Thread, h: History, u: nat)
    requires Sized(s, g) && s.ThreadWF(th) && u < |s.threads|
    requires |h.hb| == |h.target| == |h.waited| == |s.threads|
  {
    var n := s.threads[u].node;
    && Carries(s, g, u, th.clock[n], h.hb[u])
    && (n != th.node ==> Carries(s, g, u, th.seen[n], h.hb[u]))
    && (th.pc.Acquiring? || th.pc.Merging? ==>
          && Carries(s, g, u, th.pc.target[n], h.target[u])
          && (n != th.node ==> Carries(s, g, u, th.pc.waited[n], h.waited[u])))
  }

  ghost predicate ThreadCarries(s: State, g: Trace, t: nat, u: nat)
    requires Sized(s, g) && t < |s.threads| && u < |s.threads|
  {
    RecordCarries(s, g, s.threads[t], g.ths[t], u)
  }

  /** The slots a thread has written so far: its own clock or its current index bounds them. */
  ghost predicate OwnBound(s: State, g: Trace, t: nat, bound: nat)
    requires Sized(s, g) && t < |s.threads|
  {
    forall k: nat | k < |g.marks[s.threads[t].node]| && g.marks[s.threads[t].node][k].author == t :: k < bound
  }

  ghost predicate OwnOk(s: State, g: Trace, t: nat)
    requires Sized(s, g) && t < |s.threads|
  {
    var th, h := s.threads[t], g.ths[t];
    && h.flushed <= |h.stores|
    && Pending(th) == LinesOf(h.stores, h.flushed, |h.stores|)
    && match th.pc {
         case Reserving(rel, idx, next) =>
           && OwnBound(s, g, t, idx + 1) && idx < |g.marks[th.node]|
           && g.marks[th.node][idx] == Mark(t, h.flushed, |h.stores|)
         case Publishing(rel, idx, next) => OwnBound(s, g, t, idx + 1)
         case Assigning(idx) => OwnBound(s, g, t, idx + 1)
         case Flushing(_, _, _) => true
         case Inserting(_) => true
         case _ => th.recent == 0 ==> OwnBound(s, g, t, th.clock[th.node])
       }
  }

  ghost predicate SlotOk(s: State, g: Trace, i: nat, k: nat)
    requires Sized(s, g) && i < |s.rings| && k < |s.rings[i]|
  {
    var m := g.marks[i][k];
    && m.author < |s.threads| && s.threads[m.author].node == i
    && m.from <= m.upto <= |g.ths[m.author].stores|
    && (s.rings[i][k].Committed? ==>
          && m.upto <= g.ths[m.author].flushed
          && s.rings[i][k].log.items == LinesOf(g.ths[m.author].stores, m.from, m.upto))
  }

  ghost predicate HbInv(s: State, g: Trace) {
    && Sized(s, g)
    && (forall t: nat | t < |s.threads| :: OwnOk(s, g, t))
    && (forall i: nat, k: nat | i < |s.rings| && k < |s.rings[i]| :: SlotOk(s, g, i, k))
    && (forall t: nat, u: nat | t < |s.threads| && u < |s.threads| :: ThreadCarries(s, g, t, u))
    && (forall x: nat, u: nat | x < |s.locs| && u < |s.threads| :: LocCarries(s, g, x, u))
  }

  lemma NotPending(s: State, g: Trace, t: nat, l: Line, u: nat)
    requires HbInv(s, g) && t < |s.threads| && HbRaceFree(s, g, t, l)
    requires u < |s.threads| && s.threads[u].node != s.threads[t].node
    ensures l !in Pending(s.threads[u])
  {
    assert OwnOk(s, g, u);
    assert ThreadCarries(s, g, t, u);
  }

  /** Race freedom by happens-before implies the guard of the protocol. */
  lemma HbRaceFreeIsRaceFree(s: State, g: Trace, t: nat, l: Line)
    requires HbInv(s, g) && t < |s.threads| && HbRaceFree(s, g, t, l)
    ensures RaceFree(s, t, l)
  {
    var n := s.threads[t].node;
    forall u | 0 <= u < |s.threads| && s.threads[u].node != n ensures l !in Pending(s.threads[u]) {
      NotPending(s, g, t, l, u);
    }
    forall i: nat, k: nat | i < |s.nodes| && i != n && k < |s.rings[i]| && Holds(s.rings[i], k, l)
      ensures k < s.threads[t].seen[i]
    {
      assert SlotOk(s, g, i, k);
      var mark := g.marks[i][k];
      var u := mark.author;
      assert ThreadCarries(s, g, t, u);
      var m: nat :| mark.from <= m < mark.upto && g.ths[u].stores[m] == l;
      assert LogOf(s, g, u, k, g.ths[t].hb[u]);
    }
  }

  // ---- the invariant is kept ----

  ghost predicate LaterMarks(g: Trace, g': Trace, i: nat)
    requires i < |g.marks| && i < |g'.marks|
  {
    && |g.marks[i]| <= |g'.marks[i]|
    && (forall k: nat | k < |g.marks[i]| :: g'.marks[i][k] == g.marks[i][k])
    && (forall k: nat | |g.marks[i]| <= k < |g'.marks[i]| ::
          g'.marks[i][k].author < |g.ths| && g.ths[g'.marks[i][k].author].flushed <= g'.marks[i][k].from)
  }

  /** Stores and flushed counts grow; new slots stand for stores that were not flushed before. */
  ghost predicate Later(s: State, g: Trace, s': State, g': Trace) {
    && Sized(s, g) && Sized(s', g') && SameShape(s, s')
    && (forall t: nat | t < |s.threads| ::
          && s.threads[t].node == s'.threads[t].node
          && g.ths[t].flushed <= g'.ths[t].flushed && g.ths[t].stores <= g'.ths[t].stores)
    && (forall i: nat | i < |g.marks| :: LaterMarks(g, g', i))
  }

  lemma CarriesLater(s: State, g: Trace, s': State, g': Trace, u: nat, v: nat, b: nat)
    requires Later(s, g, s', g') && u < |s.threads| && Carries(s, g, u, v, b)
    ensures Carries(s', g', u, v, b)
  {
    var i := s.threads[u].node;
    assert LaterMarks(g, g', i);
    forall k: nat | LogOf(s', g', u, k, b) ensures k < v {
      if k < |g.marks[i]| {
        assert LogOf(s, g, u, k, b);
      }
    }
  }

  lemma CarriesMax(s: State, g: Trace, u: nat, v: nat, b: nat, v': nat, b': nat)
    requires Sized(s, g) && u < |s.threads| && Carries(s, g, u, v, b) && Carries(s, g, u, v', b')
    ensures Carries(s, g, u, Max(v, v'), Max(b, b'))
  {
    forall k: nat | LogOf(s, g, u, k, Max(b, b')) ensures k < Max(v, v') {
      assert LogOf(s, g, u, k, b) || LogOf(s, g, u, k, b');
    }
  }

  lemma CarriesLess(s: State, g: Trace, u: nat, v: nat, b: nat, v': nat, b': nat)
    requires Sized(s, g) && u < |s.threads| && Carries(s, g, u, v, b) && v <= v' && b' <= b
    ensures Carries(s, g, u, v', b')
  {
    forall k: nat | LogOf(s, g, u, k, b') ensures k < v' {
      assert LogOf(s, g, u, k, b);
    }
  }

  lemma ThreadTrackSized(s: State, g: Trace, t: nat, a: ThreadStep)
    requires Sized(s, g) && t < |s.threads| && ThreadPossible(s, t, a)
    ensures Sized(ApplyThread(s, t, a), TrackThread(s, g, t, a))
  {
  }

  lemma ThreadTrackMarks(s: State, g: Trace, t: nat, a: ThreadStep, i: nat)
    requires Sized(s, g) && t < |s.threads| && ThreadPossible(s, t, a) && i < |g.marks|
    ensures |TrackThread(s, g, t, a).marks| == |g.marks| && LaterMarks(g, TrackThread(s, g, t, a), i)
    ensures forall k: nat | |g.marks[i]| <= k < |TrackThread(s, g, t, a).marks[i]| ::
              TrackThread(s, g, t, a).marks[i][k].author == t
  {
  }

  lemma ThreadTrackStores(s: State, g: Trace, t: nat, a: ThreadStep, u: nat)
    requires Sized(s, g) && t < |s.threads| && u < |s.threads| && ThreadPossible(s, t, a)
    requires g.ths[t].flushed <= |g.ths[t].stores|
    ensures var g' := TrackThread(s, g, t, a);
            && |g'.ths| == |g.ths|
            && g.ths[u].flushed <= g'.ths[u].flushed && g.ths[u].stores <= g'.ths[u].stores
            && (u != t ==> g'.ths[u] == g.ths[u])
  {
  }

  lemma TrackLater(s: State, g: Trace, step: Step)
    requires HbInv(s, g) && Possible(s, step)
    ensures Later(s, g, Apply(s, step), Track(s, g, step))
  {
    match step
    case ByCache(n, c) => CacheStepFrame(s, n, c);
    case ByThread(t, a) => ThreadTrackLater(s, g, t, a);
    case ByConsumer(n, b) => ConsumerTrackLater(s, g, n, b);
  }

  lemma ConsumerTrackLater(s: State, g: Trace, n: nat, b: ConsumerStep)
    requires HbInv(s, g) && n < |s.nodes| && ConsumerPossible(s, n, b)
    ensures Later(s, g, ApplyConsumer(s, n, b), Track(s, g, ByConsumer(n, b)))
  {
    ConsumerStepFrame(s, n, b);
  }

  lemma ThreadTrackLater(s: State, g: Trace, t: nat, a: ThreadStep)
    requires HbInv(s, g) && t < |s.threads| && ThreadPossible(s, t, a)
    ensures Later(s, g, ApplyThread(s, t, a), TrackThread(s, g, t, a))
  {
    ThreadStepFrame(s, t, a);
    ThreadTrackSized(s, g, t, a);
    assert OwnOk(s, g, t);
    forall i: nat | i < |g.marks| ensures LaterMarks(g, TrackThread(s, g, t, a), i) {
      ThreadTrackMarks(s, g, t, a, i);
    }
    forall u: nat | u < |s.threads|
      ensures g.ths[u].flushed <= TrackThread(s, g, t, a).ths[u].flushed
      ensures g.ths[u].stores <= TrackThread(s, g, t, a).ths[u].stores
      ensures ApplyThread(s, t, a).threads[u].node == s.threads[u].node
    {
      ThreadTrackStores(s, g, t, a, u);
    }
  }

  lemma WantedCarries(s: State, g: Trace, t: nat, u: nat)
    requires HbInv(s, g) && t < |s.threads| && u < |s.threads|
    requires s.threads[t].pc.Acquiring? || s.threads[t].pc.Merging?
    ensures Carries(s, g, u, Wanted(s, t, s.threads[u].node), WantedHb(s, g, t, u))
  {
    assert ThreadCarries(s, g, t, u);
    assert LocCarries(s, g, s.threads[t].pc.loc, u);
  }

  lemma PublishCarries(s: State, g: Trace, t: nat, a: ThreadStep, x: nat, u: nat)
    requires HbInv(s, g) && t < |s.threads| && u < |s.threads| && x < |s.locs| && ThreadPossible(s, t, a)
    ensures Carries(s, g, u, ApplyThread(s, t, a).locs[x][s.threads[u].node], TrackThread(s, g, t, a).locs[x][u])
  {
    assert LocCarries(s, g, x, u) && ThreadCarries(s, g, t, u) && OwnOk(s, g, t);
    if a.Publish? && a.x == x && s.threads[u].node == a.i {
      var v, b := s.threads[t].clock[a.i], Known(g, t, u);
      assert Carries(s, g, u, v, b);
      CarriesMax(s, g, u, s.locs[x][a.i], g.locs[x][u], v, b);
    }
  }

  lemma MergeCarries(s: State, g: Trace, t: nat, u: nat)
    requires HbInv(s, g) && t < |s.threads| && u < |s.threads| && ThreadPossible(s, t, MergeElement)
    ensures RecordCarries(s, g, DoMergeElement(s, t).threads[t], Joins(s, g, t, s.threads[t].pc.j), u)
  {
    var th, h, n := s.threads[t], g.ths[t], s.threads[u].node;
    assert ThreadCarries(s, g, t, u);
    if n == th.pc.j {
      WantedCarries(s, g, t, u);
      var v, b := Wanted(s, t, n), Joined(s, g, t, u);
      CarriesLess(s, g, u, v, WantedHb(s, g, t, u), v, b);
      CarriesMax(s, g, u, th.clock[n], h.hb[u], v, b);
      if n != th.node {
        CarriesLess(s, g, u, th.pc.waited[n], h.waited[u], th.pc.waited[n], b);
        CarriesMax(s, g, u, th.seen[n], h.hb[u], th.pc.waited[n], b);
      }
    }
  }

  lemma DoneCarries(s: State, g: Trace, t: nat, i: nat, u: nat)
    requires HbInv(s, g) && t < |s.threads| && u < |s.threads| && i < |s.nodes| && s.threads[t].pc.Acquiring?
    ensures RecordCarries(s, g, NodeDone(s, t, i), Waits(s, g, t, i), u)
  {
    assert ThreadCarries(s, g, t, u);
    WantedCarries(s, g, t, u);
  }

  lemma ThreadStepCarries(s: State, g: Trace, t: nat, a: ThreadStep, u: nat)
    requires HbInv(s, g) && AllBelow(s) && t < |s.threads| && u < |s.threads| && ThreadPossible(s, t, a)
    ensures var s', g' := ApplyThread(s, t, a), TrackThread(s, g, t, a);
            Sized(s', g') && RecordCarries(s, g, s'.threads[t], g'.ths[t], u)
  {
    ThreadTrackSized(s, g, t, a);
    assert ThreadCarries(s, g, t, u);
    var th, n := s.threads[t], s.threads[u].node;
    match a {
      case AssignClock =>
        assert OwnBelow(th);
        if n == th.node {
          CarriesLess(s, g, u, th.clock[n], g.ths[t].hb[u], th.pc.idx + 1, g.ths[t].hb[u]);
        }
      case CheckNode(i) => DoneCarries(s, g, t, i, u);
      case BeginAcquire(x, byRef) => assert LocCarries(s, g, x, u);
      case MergeElement => MergeCarries(s, g, t, u);
      case _ =>
    }
  }

  /** Only its own steps, or its own helping, change a thread and its history. */
  lemma RecordChanges(s: State, g: Trace, step: Step, t: nat)
    requires Sized(s, g) && Possible(s, step) && t < |s.threads|
    requires !(step.ByThread? && step.t == t)
    requires !(step.ByConsumer? && step.b.Leave? && s.nodes[step.n].cons.HeldBy(t))
    requires step.ByThread? ==> g.ths[step.t].flushed <= |g.ths[step.t].stores|
    ensures |Track(s, g, step).ths| == |g.ths|
    ensures Apply(s, step).threads[t] == s.threads[t] && Track(s, g, step).ths[t] == g.ths[t]
  {
    match step
    case ByCache(m, c) => CacheStepFrame(s, m, c);
    case ByThread(v, a) =>
      ThreadStepFrame(s, v, a);
      ThreadTrackStores(s, g, v, a, t);
    case ByConsumer(m, b) => ConsumerStepFrame(s, m, b);
  }

  lemma StepRecordCarries(s: State, g: Trace, step: Step, t: nat, u: nat)
    requires HbInv(s, g) && AllBelow(s) && Possible(s, step) && t < |s.threads| && u < |s.threads|
    requires Sized(Apply(s, step), Track(s, g, step)) && s.ThreadWF(Apply(s, step).threads[t])
    ensures RecordCarries(s, g, Apply(s, step).threads[t], Track(s, g, step).ths[t], u)
  {
    if step.ByThread? && step.t == t {
      ThreadStepCarries(s, g, t, step.a, u);
    } else if step.ByConsumer? && step.b.Leave? && s.nodes[step.n].cons.HeldBy(t) {
      ConsumerStepFrame(s, step.n, step.b);
      DoneCarries(s, g, t, s.nodes[step.n].cons.ring, u);
    } else {
      assert step.ByThread? ==> OwnOk(s, g, step.t);
      RecordChanges(s, g, step, t);
      assert ThreadCarries(s, g, t, u);
    }
  }

  lemma StepThreadCarries(s: State, g: Trace, step: Step, s': State, g': Trace, t: nat, u: nat)
    requires HbInv(s, g) && AllBelow(s) && Possible(s, step) && t < |s.threads| && u < |s.threads|
    requires s' == Apply(s, step) && g' == Track(s, g, step) && Later(s, g, s', g')
    ensures ThreadCarries(s', g', t, u)
  {
    assert s'.ThreadWF(s'.threads[t]);
    StepRecordCarries(s, g, step, t, u);
    RecordLater(s, g, s', g', s'.threads[t], g'.ths[t], u);
  }

  lemma RecordLater(s: State, g: Trace, s': State, g': Trace, th: Thread, h: History, u: nat)
    requires Later(s, g, s', g') && u < |s.threads| && s.ThreadWF(th)
    requires |h.hb| == |h.target| == |h.waited| == |s.threads|
    requires RecordCarries(s, g, th, h, u)
    ensures RecordCarries(s', g', th, h, u)
  {
    var n := s.threads[u].node;
    CarriesLater(s, g, s', g', u, th.clock[n], h.hb[u]);
    if n != th.node {
      CarriesLater(s, g, s', g', u, th.seen[n], h.hb[u]);
    }
    if th.pc.Acquiring? || th.pc.Merging? {
      CarriesLater(s, g, s', g', u, th.pc.target[n], h.target[u]);
      if n != th.node {
        CarriesLater(s, g, s', g', u, th.pc.waited[n], h.waited[u]);
      }
    }
  }

  lemma StepLocCarries(s: State, g: Trace, step: Step, x: nat, u: nat)
    requires HbInv(s, g) && Possible(s, step) && x < |s.locs| && u < |s.threads|
    ensures Sized(Apply(s, step), Track(s, g, step)) && LocCarries(Apply(s, step), Track(s, g, step), x, u)
  {
    var s', g' := Apply(s, step), Track(s, g, step);
    TrackLater(s, g, step);
    assert LocCarries(s, g, x, u);
    match step {
      case ByCache(m, c) => CacheStepFrame(s, m, c);
      case ByThread(t, a) => PublishCarries(s, g, t, a, x, u);
      case ByConsumer(m, b) => ConsumerStepFrame(s, m, b);
    }
    CarriesLater(s, g, s', g', u, s'.locs[x][s.threads[u].node], g'.locs[x][u]);
  }

  lemma LinesOfPrefix(stores: seq<Line>, stores': seq<Line>, from: nat, upto: nat)
    requires stores <= stores' && upto <= |stores|
    ensures LinesOf(stores', from, upto) == LinesOf(stores, from, upto)
  {
    assert forall m: nat | from <= m < upto :: stores'[m] == stores[m];
  }

  lemma LinesOfSnoc(stores: seq<Line>, l: Line, from: nat)
    requires from <= |stores|
    ensures LinesOf(stores + [l], from, |stores| + 1) == LinesOf(stores, from, |stores|) + {l}
  {
    var stores' := stores + [l];
    assert stores'[|stores|] == l;
    assert forall m: nat | from <= m < |stores| :: stores'[m] == stores[m];
  }

  lemma OwnStepPending(s: State, g: Trace, t: nat, a: ThreadStep)
    requires HbInv(s, g) && PcsOk(s) && t < |s.threads| && ThreadPossible(s, t, a)
    ensures var th', h' := ApplyThread(s, t, a).threads[t], TrackThread(s, g, t, a).ths[t];
            h'.flushed <= |h'.stores| && Pending(th') == LinesOf(h'.stores, h'.flushed, |h'.stores|)
  {
    assert OwnOk(s, g, t) && PcOk(s.threads[t], s.rings[s.threads[t].node]);
    if a.Store? {
      LinesOfSnoc(g.ths[t].stores, a.l, g.ths[t].flushed);
    }
  }

  lemma OwnStepOk(s: State, g: Trace, t: nat, a: ThreadStep)
    requires HbInv(s, g) && PcsOk(s) && AllBelow(s) && t < |s.threads| && ThreadPossible(s, t, a)
    requires Sized(ApplyThread(s, t, a), TrackThread(s, g, t, a))
    ensures OwnOk(ApplyThread(s, t, a), TrackThread(s, g, t, a), t)
  {
    OwnStepPending(s, g, t, a);
    assert OwnOk(s, g, t) && OwnBelow(s.threads[t]);
    if a.Reserve? {
      ReserveOk(s, g, t);
    } else {
      OwnRecordOk(s, g, t, a);
    }
  }

  lemma ReserveOk(s: State, g: Trace, t: nat)
    requires Sized(s, g) && t < |s.threads| && ThreadPossible(s, t, Reserve) && OwnOk(s, g, t)
    requires Sized(DoReserve(s, t), TrackThread(s, g, t, Reserve))
    requires Pending(DoReserve(s, t).threads[t]) == Pending(s.threads[t])
    ensures OwnOk(DoReserve(s, t), TrackThread(s, g, t, Reserve), t)
  {
  }

  /** The steps that leave the slots of the thread alone. */
  lemma OwnRecordOk(s: State, g: Trace, t: nat, a: ThreadStep)
    requires Sized(s, g) && t < |s.threads| && ThreadPossible(s, t, a) && !a.Reserve?
    requires OwnOk(s, g, t) && OwnBelow(s.threads[t]) && PcOk(s.threads[t], s.rings[s.threads[t].node])
    requires Sized(ApplyThread(s, t, a), TrackThread(s, g, t, a))
    requires var th', h' := ApplyThread(s, t, a).threads[t], TrackThread(s, g, t, a).ths[t];
             h'.flushed <= |h'.stores| && Pending(th') == LinesOf(h'.stores, h'.flushed, |h'.stores|)
    ensures OwnOk(ApplyThread(s, t, a), TrackThread(s, g, t, a), t)
  {
    OwnMarksStay(s, g, t, a);
    if a.MergeElement? {
      MergeBound(s, g, t);
    }
  }

  lemma OwnMarksStay(s: State, g: Trace, t: nat, a: ThreadStep)
    requires Sized(s, g) && t < |s.threads| && ThreadPossible(s, t, a) && !a.Reserve?
    ensures TrackThread(s, g, t, a).marks == g.marks && ApplyThread(s, t, a).threads[t].node == s.threads[t].node
  {
  }

  lemma MergeBound(s: State, g: Trace, t: nat)
    requires Sized(s, g) && t < |s.threads| && s.threads[t].pc.Merging? && OwnOk(s, g, t)
    ensures var th' := DoMergeElement(s, t).threads[t];
            && th'.recent == s.threads[t].recent && th'.clock[th'.node] >= s.threads[t].clock[th'.node]
            && (th'.recent == 0 ==> OwnBound(s, g, t, th'.clock[th'.node]))
  {
  }

  /** A thread's own record is judged the same while others only add slots of their own. */
  lemma OwnOkFrame(s: State, g: Trace, s': State, g': Trace, t: nat)
    requires Sized(s, g) && Sized(s', g') && |s'.threads| == |s.threads| && |s'.rings| == |s.rings|
    requires t < |s.threads| && OwnOk(s, g, t)
    requires s'.threads[t] == s.threads[t] && g'.ths[t] == g.ths[t] && LaterMarks(g, g', s.threads[t].node)
    requires forall k: nat | |g.marks[s.threads[t].node]| <= k < |g'.marks[s.threads[t].node]| ::
               g'.marks[s.threads[t].node][k].author != t
    ensures OwnOk(s', g', t)
  {
  }

  lemma OtherThreadOk(s: State, g: Trace, v: nat, a: ThreadStep, s': State, g': Trace, t: nat)
    requires HbInv(s, g) && v < |s.threads| && ThreadPossible(s, v, a) && t < |s.threads| && v != t
    requires s' == ApplyThread(s, v, a) && g' == TrackThread(s, g, v, a) && Later(s, g, s', g')
    ensures OwnOk(s', g', t)
  {
    assert OwnOk(s, g, t) && OwnOk(s, g, v);
    RecordChanges(s, g, ByThread(v, a), t);
    ThreadTrackMarks(s, g, v, a, s.threads[t].node);
    OwnOkFrame(s, g, s', g', t);
  }

  lemma ConsumerOwnOk(s: State, g: Trace, n: nat, b: ConsumerStep, s': State, g': Trace, t: nat)
    requires HbInv(s, g) && n < |s.nodes| && ConsumerPossible(s, n, b) && t < |s.threads|
    requires s' == ApplyConsumer(s, n, b) && g' == Track(s, g, ByConsumer(n, b)) && Later(s, g, s', g')
    ensures OwnOk(s', g', t)
  {
    assert OwnOk(s, g, t);
    ConsumerStepFrame(s, n, b);
    assert g'.marks == g.marks && g'.ths[t].stores == g.ths[t].stores && g'.ths[t].flushed == g.ths[t].flushed;
  }

  lemma OtherStepOk(s: State, g: Trace, step: Step, s': State, g': Trace, t: nat)
    requires HbInv(s, g) && Possible(s, step) && t < |s.threads| && !(step.ByThread? && step.t == t)
    requires s' == Apply(s, step) && g' == Track(s, g, step) && Later(s, g, s', g')
    ensures OwnOk(s', g', t)
  {
    match step {
      case ByCache(m, c) =>
        assert OwnOk(s, g, t);
        CacheStepFrame(s, m, c);
        OwnOkFrame(s, g, s', g', t);
      case ByThread(v, a) => OtherThreadOk(s, g, v, a, s', g', t);
      case ByConsumer(m, b) => ConsumerOwnOk(s, g, m, b, s', g', t);
    }
  }

  /** A slot as the histories describe it, where its author is given explicitly. */
  lemma SlotLater(s: State, g: Trace, s': State, g': Trace, i: nat, k: nat)
    requires Later(s, g, s', g') && i < |s.rings| && k < |s.rings[i]| && SlotOk(s, g, i, k)
    requires k < |s'.rings[i]| && s'.rings[i][k] == s.rings[i][k]
    ensures SlotOk(s', g', i, k)
  {
    var m := g.marks[i][k];
    assert LaterMarks(g, g', i);
    if s.rings[i][k].Committed? {
      LinesOfPrefix(g.ths[m.author].stores, g'.ths[m.author].stores, m.from, m.upto);
    }
  }

  lemma NewSlotOk(s: State, g: Trace, t: nat, a: ThreadStep, s': State, g': Trace, i: nat, k: nat)
    requires HbInv(s, g) && PcsOk(s) && t < |s.threads| && ThreadPossible(s, t, a)
    requires s' == ApplyThread(s, t, a) && g' == TrackThread(s, g, t, a) && Later(s, g, s', g')
    requires i < |s'.rings| && k < |s'.rings[i]| && (k < |s.rings[i]| ==> s'.rings[i][k] != s.rings[i][k])
    ensures SlotOk(s', g', i, k)
  {
    assert OwnOk(s, g, t) && PcOk(s.threads[t], s.rings[s.threads[t].node]);
    if k < |s.rings[i]| {
      assert a.Commit? && SlotOk(s, g, i, k);
      CommittedSlotOk(s, g, t, i, k);
    } else {
      assert a.Reserve?;
      ReservedSlotOk(s, g, t, i, k);
    }
  }

  lemma CommittedSlotOk(s: State, g: Trace, t: nat, i: nat, k: nat)
    requires Sized(s, g) && t < |s.threads| && ThreadPossible(s, t, Commit) && OwnOk(s, g, t)
    requires i < |s.rings| && k < |s.rings[i]| && DoCommit(s, t).rings[i][k] != s.rings[i][k] && SlotOk(s, g, i, k)
    requires Sized(DoCommit(s, t), TrackThread(s, g, t, Commit))
    ensures SlotOk(DoCommit(s, t), TrackThread(s, g, t, Commit), i, k)
  {
  }

  lemma ReservedSlotOk(s: State, g: Trace, t: nat, i: nat, k: nat)
    requires Sized(s, g) && t < |s.threads| && ThreadPossible(s, t, Reserve) && OwnOk(s, g, t)
    requires i < |s.rings| && |s.rings[i]| <= k < |DoReserve(s, t).rings[i]|
    requires Sized(DoReserve(s, t), TrackThread(s, g, t, Reserve))
    ensures SlotOk(DoReserve(s, t), TrackThread(s, g, t, Reserve), i, k)
  {
  }

  lemma StepSlotOk(s: State, g: Trace, step: Step, s': State, g': Trace, i: nat, k: nat)
    requires HbInv(s, g) && PcsOk(s) && Possible(s, step)
    requires s' == Apply(s, step) && g' == Track(s, g, step) && Later(s, g, s', g')
    requires i < |s'.rings| && k < |s'.rings[i]|
    ensures SlotOk(s', g', i, k)
  {
    match step {
      case ByCache(m, c) => CacheStepFrame(s, m, c);
      case ByThread(t, a) =>
      case ByConsumer(m, b) => ConsumerStepFrame(s, m, b);
    }
    if k < |s.rings[i]| && s'.rings[i][k] == s.rings[i][k] {
      assert SlotOk(s, g, i, k);
      SlotLater(s, g, s', g', i, k);
    } else {
      NewSlotOk(s, g, step.t, step.a, s', g', i, k);
    }
  }

  // ---- no store is lost ----

  /** Store m of thread u sits in a committed log of u. */
  ghost predicate LoggedAt(s: State, g: Trace, u: nat, m: nat, k: nat)
    requires Sized(s, g) && u < |s.threads|
  {
    var i := s.threads[u].node;
    && k < |s.rings[i]| && s.rings[i][k].Committed?
    && g.marks[i][k].author == u && g.marks[i][k].from <= m < g.marks[i][k].upto
  }

  ghost predicate Logged(s: State, g: Trace, u: nat, m: nat)
    requires Sized(s, g) && u < |s.threads|
  {
    exists k: nat :: LoggedAt(s, g, u, m, k)
  }

  ghost predicate AllLogged(s: State, g: Trace)
    requires Sized(s, g)
  {
    forall u: nat, m: nat | u < |s.threads| && m < g.ths[u].flushed :: Logged(s, g, u, m)
  }

  lemma StepLogged(s: State, g: Trace, step: Step, s': State, g': Trace)
    requires HbInv(s, g) && PcsOk(s) && AllLogged(s, g) && Possible(s, step)
    requires s' == Apply(s, step) && g' == Track(s, g, step) && Later(s, g, s', g') && RingsGrow(s, s')
    ensures AllLogged(s', g')
  {
    forall u: nat, m: nat | u < |s.threads| && m < g'.ths[u].flushed ensures Logged(s', g', u, m) {
      var i := s.threads[u].node;
      assert LaterMarks(g, g', i) && Grows(s.rings[i], s'.rings[i]);
      if m < g.ths[u].flushed {
        assert Logged(s, g, u, m);
        var k: nat :| LoggedAt(s, g, u, m, k);
        assert LoggedAt(s', g', u, m, k);
      } else {
        NewlyLogged(s, g, step, u);
        assert LoggedAt(s', g', u, m, s.threads[u].pc.idx);
      }
    }
  }

  /** Only a commit raises the flushed count of a thread, and its slot stands for the new part. */
  lemma NewlyLogged(s: State, g: Trace, step: Step, u: nat)
    requires HbInv(s, g) && PcsOk(s) && Possible(s, step) && u < |s.threads|
    requires |Track(s, g, step).ths| == |g.ths| && g.ths[u].flushed != Track(s, g, step).ths[u].flushed
    ensures step == ByThread(u, Commit) && s.threads[u].pc.Reserving?
    ensures var i, k := s.threads[u].node, s.threads[u].pc.idx;
            && Track(s, g, step).marks == g.marks && k < |g.marks[i]|
            && g.marks[i][k] == Mark(u, g.ths[u].flushed, Track(s, g, step).ths[u].flushed)
  {
    assert OwnOk(s, g, u);
  }
}
