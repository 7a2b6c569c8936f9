/**
 CXLSharedMutex over the reader-writer lock.  A reader counts itself in while it briefly holds the writer
 lock; a writer takes the writer lock and waits until no reader is counted.  The lock carries a vector
 clock that lockers join element by element and that every unlock, shared or exclusive, overwrites element
 by element; shared unlocks may do so at the same time.  lock() first passes through lock_shared.
 Exclusion on the writer lock itself is that of McsLock.
 */
module CxlSharedMutex {
  import opened Clocks

  datatype Pc =
    | Out
    // shared; `pre` marks the shared phase at the start of lock()
    | WantShared(pre: bool)
    | Entering(pre: bool)              // writer lock held, before active_readers.fetch_add
    | Counted(pre: bool)               // before the writer lock is released
    | Joining(pre: bool, j: nat)       // merging element j of the location clock
    | Reading
    | Storing(j: nat)                  // unlock_shared: writing element j of the location clock
    | Uncounting(pre: bool)            // before active_readers.fetch_sub
    // exclusive
    | WantExclusive
    | Draining                         // writer lock held, waiting for active_readers == 0
    | XJoining(j: nat)
    | Writing
    | XStoring(j: nat)
    | XUnlocking

  // thread t has set element i of the clock of the lock to v, its own component
  datatype Write = Write(t: nat, i: nat, v: nat)

  // inside (the readers counted), lastX (the clock of the last exclusive unlock) and writes (what was stored to
  // the clock of the lock, in order) are history variables
  datatype State = State(
    nodes: nat, writer: int, active: int, loc: Clock, clocks: seq<Clock>, pcs: seq<Pc>,
    inside: set<nat>, lastX: Clock, writes: seq<Write>)

  datatype Action =
    | BeginShared(pre: bool) | TakeShared | CountIn | DropWriterLock | Join | Grow(c: Clock)
    | UnlockShared | Store | CountOut
    | TakeExclusive | SeeDrained | Unlock | Release

  ghost predicate Shape(s: State) {
    && |s.loc| == s.nodes && |s.lastX| == s.nodes && |s.clocks| == |s.pcs|
    && forall t: nat | t < |s.clocks| :: |s.clocks[t]| == s.nodes
  }

  ghost predicate Possible(s: State, t: nat, a: Action) {
    && Shape(s) && t < |s.pcs|
    && match a
       case BeginShared(pre) => s.pcs[t].Out?
       case TakeShared => s.pcs[t].WantShared? && s.writer < 0
       case CountIn => s.pcs[t].Entering?
       case DropWriterLock => s.pcs[t].Counted?
       case Join => s.pcs[t].Joining? || s.pcs[t].XJoining?
       case Grow(c) => (s.pcs[t].Out? || s.pcs[t].Reading? || s.pcs[t].Writing?) && Leq(s.clocks[t], c)
       case UnlockShared => s.pcs[t].Reading?
       case Store => s.pcs[t].Storing? || s.pcs[t].XStoring?
       case CountOut => s.pcs[t].Uncounting?
       case TakeExclusive => s.pcs[t].WantExclusive? && s.writer < 0
       case SeeDrained => s.pcs[t].Draining? && s.active <= 0
       case Unlock => s.pcs[t].Writing?
       case Release => s.pcs[t].XUnlocking?
  }

  function WithPc(s: State, t: nat, pc: Pc): State
    requires t < |s.pcs|
  {
    s.(pcs := s.pcs[t := pc])
  }

  ghost function DoJoin(s: State, t: nat, j: nat, next: Pc, done: Pc): State
    requires Shape(s) && t < |s.pcs|
  {
    if j >= s.nodes then WithPc(s, t, done)
    else
      var c: Clock := s.clocks[t][j := Max(s.clocks[t][j], s.loc[j])];
      WithPc(s, t, next).(clocks := s.clocks[t := c])
  }

  ghost function DoStore(s: State, t: nat, j: nat, next: Pc, done: Pc): State
    requires Shape(s) && t < |s.pcs|
  {
    if j >= s.nodes then WithPc(s, t, done)
    else
      var l: Clock := s.loc[j := s.clocks[t][j]];
      WithPc(s, t, next).(loc := l, writes := s.writes + [Write(t, j, s.clocks[t][j])])
  }

  ghost function Apply(s: State, t: nat, a: Action): State
    requires Possible(s, t, a)
  {
    var pc := s.pcs[t];
    match a
    case BeginShared(pre) => WithPc(s, t, WantShared(pre))
    case TakeShared => WithPc(s, t, Entering(pc.pre)).(writer := t)
    case CountIn => WithPc(s, t, Counted(pc.pre)).(active := s.active + 1, inside := s.inside + {t})
    case DropWriterLock => WithPc(s, t, Joining(pc.pre, 0)).(writer := -1)
    case Join =>
      if pc.Joining? then DoJoin(s, t, pc.j, Joining(pc.pre, pc.j + 1), if pc.pre then Uncounting(true) else Reading)
      else DoJoin(s, t, pc.j, XJoining(pc.j + 1), Writing)
    case Grow(c) => s.(clocks := s.clocks[t := c])
    case UnlockShared => WithPc(s, t, Storing(0))
    case Store =>
      if pc.Storing? then DoStore(s, t, pc.j, Storing(pc.j + 1), Uncounting(false))
      else DoStore(s, t, pc.j, XStoring(pc.j + 1), XUnlocking)
    case CountOut =>
      WithPc(s, t, if pc.pre then WantExclusive else Out).(active := s.active - 1, inside := s.inside - {t})
    case TakeExclusive => WithPc(s, t, Draining).(writer := t)
    case SeeDrained => WithPc(s, t, XJoining(0))
    case Unlock => WithPc(s, t, XStoring(0))
    case Release => WithPc(s, t, Out).(writer := -1, lastX := s.clocks[t])
  }

  // ---- the invariant ----

  ghost predicate IsCounted(pc: Pc) {
    pc.Counted? || pc.Joining? || pc.Reading? || pc.Storing? || pc.Uncounting?
  }

  ghost predicate HoldsWriterLock(pc: Pc) {
    pc.Entering? || pc.Counted? || pc.Draining? || Exclusive(pc)
  }

  /** A writer past its spin loop. */
  ghost predicate Exclusive(pc: Pc) {
    pc.XJoining? || pc.Writing? || pc.XStoring? || pc.XUnlocking?
  }

  ghost predicate ClockOk(s: State, t: nat)
    requires Shape(s) && t < |s.pcs|
  {
    match s.pcs[t]
    case Joining(pre, j) => LeqUpto(s.lastX, s.clocks[t], j)
    case Reading => Leq(s.lastX, s.clocks[t])
    case Storing(j) => Leq(s.lastX, s.clocks[t])
    case XJoining(j) => LeqUpto(s.loc, s.clocks[t], j)
    case Writing => Leq(s.loc, s.clocks[t])
    case XStoring(j) => Leq(s.loc, s.clocks[t]) && LeqUpto(s.clocks[t], s.loc, j)
    case XUnlocking => s.loc == s.clocks[t]
    case _ => true
  }

  ghost predicate ThreadOk(s: State, t: nat)
    requires Shape(s) && t < |s.pcs|
  {
    && (IsCounted(s.pcs[t]) <==> t in s.inside)
    && (HoldsWriterLock(s.pcs[t]) <==> s.writer == t)
    && (Exclusive(s.pcs[t]) ==> s.inside == {})
  }

  /** Write number n is the last one to element i. */
  ghost predicate IsLast(writes: seq<Write>, i: nat, n: nat) {
    n < |writes| && writes[n].i == i && forall m: nat | n < m < |writes| :: writes[m].i != i
  }

  /** Each element of the clock of the lock is what was last written to it. */
  ghost predicate WritesOk(s: State) {
    && (forall n: nat | n < |s.writes| :: s.writes[n].i < |s.loc|)
    && (forall i: nat, n: nat | i < |s.loc| && IsLast(s.writes, i, n) :: s.loc[i] == s.writes[n].v)
  }

  ghost predicate Inv(s: State) {
    && Shape(s)
    && s.active == |s.inside|
    && s.writer < |s.pcs|
    && Leq(s.lastX, s.loc)
    && WritesOk(s)
    && (forall t: nat | t < |s.pcs| :: ThreadOk(s, t) && ClockOk(s, t))
  }

  // ---- every step keeps the invariant ----

  lemma StepCount(s: State, t: nat, a: Action)
    requires Inv(s) && Possible(s, t, a)
    ensures Apply(s, t, a).active == |Apply(s, t, a).inside|
  {
    if a.CountIn? || a.CountOut? {
      CountChanges(s, t, a);
    } else {
      CountStays(s, t, a);
    }
  }

  lemma CountStays(s: State, t: nat, a: Action)
    requires Possible(s, t, a) && !a.CountIn? && !a.CountOut?
    ensures Apply(s, t, a).active == s.active && Apply(s, t, a).inside == s.inside
  {
  }

  lemma CountChanges(s: State, t: nat, a: Action)
    requires Inv(s) && Possible(s, t, a) && (a.CountIn? || a.CountOut?)
    ensures Apply(s, t, a).active == |Apply(s, t, a).inside|
  {
    assert ThreadOk(s, t);
  }

  lemma StepShape(s: State, t: nat, a: Action)
    requires Possible(s, t, a)
    ensures var s' := Apply(s, t, a);
            && Shape(s') && s'.nodes == s.nodes && |s'.pcs| == |s.pcs|
            && (s'.inside == s.inside || s'.inside == s.inside + {t} || s'.inside == s.inside - {t})
            && forall u: nat | u < |s.pcs| && u != t :: s'.pcs[u] == s.pcs[u] && s'.clocks[u] == s.clocks[u]
  {
  }

  lemma OwnThread(s: State, t: nat, a: Action)
    requires Possible(s, t, a) && ThreadOk(s, t) && Shape(Apply(s, t, a))
    requires s.active == |s.inside|
    ensures ThreadOk(Apply(s, t, a), t)
  {
  }

  lemma OtherThread(s: State, t: nat, a: Action, u: nat)
    requires Possible(s, t, a) && ThreadOk(s, t) && u < |s.pcs| && u != t && ThreadOk(s, u) && Shape(Apply(s, t, a))
    ensures ThreadOk(Apply(s, t, a), u)
  {
  }

  lemma StepThread(s: State, t: nat, a: Action, u: nat)
    requires Inv(s) && Possible(s, t, a) && u < |s.pcs|
    ensures Shape(Apply(s, t, a)) && ThreadOk(Apply(s, t, a), u)
  {
    assert ThreadOk(s, t) && ThreadOk(s, u);
    StepShape(s, t, a);
    if u == t {
      OwnThread(s, t, a);
    } else {
      OtherThread(s, t, a, u);
    }
  }

  lemma OwnClock(s: State, t: nat, a: Action)
    requires Inv(s) && Possible(s, t, a)
    ensures Shape(Apply(s, t, a)) && ClockOk(Apply(s, t, a), t) && Leq(s.lastX, Apply(s, t, a).loc)
  {
    assert ThreadOk(s, t) && ClockOk(s, t);
    StepShape(s, t, a);
    if a.Join? {
      OwnJoin(s, t);
    }
  }

  lemma OwnJoin(s: State, t: nat)
    requires Possible(s, t, Join) && ClockOk(s, t) && Leq(s.lastX, s.loc) && Shape(Apply(s, t, Join))
    ensures ClockOk(Apply(s, t, Join), t) && Apply(s, t, Join).loc == s.loc
  {
  }

  lemma OtherClock(s: State, t: nat, a: Action, u: nat)
    requires Inv(s) && Possible(s, t, a) && Shape(Apply(s, t, a)) && u < |s.pcs| && u != t
    ensures ClockOk(Apply(s, t, a), u)
  {
    assert ThreadOk(s, t) && ThreadOk(s, u) && ClockOk(s, u);
  }

  lemma StepWrites(s: State, t: nat, a: Action)
    requires Shape(s) && WritesOk(s) && Possible(s, t, a)
    ensures WritesOk(Apply(s, t, a)) && s.writes <= Apply(s, t, a).writes
  {
    var s' := Apply(s, t, a);
    if s'.writes != s.writes {
      forall i: nat, n: nat | i < |s'.loc| && IsLast(s'.writes, i, n) ensures s'.loc[i] == s'.writes[n].v {
        if n < |s.writes| {
          assert s'.writes[|s.writes|].i != i;
          assert IsLast(s.writes, i, n) by {
            assert forall m: nat | m < |s.writes| :: s'.writes[m] == s.writes[m];
          }
        }
      }
    }
  }

  lemma StepKeepsInv(s: State, t: nat, a: Action)
    requires Inv(s) && Possible(s, t, a)
    ensures Inv(Apply(s, t, a)) && s.writes <= Apply(s, t, a).writes
  {
    var s' := Apply(s, t, a);
    StepCount(s, t, a);
    StepWrites(s, t, a);
    OwnClock(s, t, a);
    assert ClockOk(s, t);
    forall u: nat | u < |s.pcs| ensures ThreadOk(s', u) && ClockOk(s', u) {
      StepThread(s, t, a, u);
      if u != t {
        OtherClock(s, t, a, u);
      }
    }
  }

  // ---- runs ----

  datatype Event = Event(t: nat, a: Action)

  ghost predicate Init(s: State) {
    && Shape(s) && s.writer == -1 && s.active == 0 && s.inside == {} && Leq(s.lastX, s.loc) && s.writes == []
    && forall t: nat | t < |s.pcs| :: s.pcs[t] == Out
  }

  ghost predicate MovesAt(states: seq<State>, events: seq<Event>, k: nat)
    requires |states| == |events| + 1 && k < |events|
  {
    Possible(states[k], events[k].t, events[k].a) && states[k + 1] == Apply(states[k], events[k].t, events[k].a)
  }

  ghost predicate IsRun(states: seq<State>, events: seq<Event>) {
    |states| == |events| + 1 && Init(states[0]) && forall k: nat | k < |events| :: MovesAt(states, events, k)
  }

  lemma {:induction false} RunInv(states: seq<State>, events: seq<Event>, k: nat)
    requires IsRun(states, events) && k < |states|
    ensures Inv(states[k])
  {
    if k > 0 {
      RunInv(states, events, k - 1);
      assert MovesAt(states, events, k - 1);
      StepKeepsInv(states[k - 1], events[k - 1].t, events[k - 1].a);
    }
  }

  /** A writer past its spin loop excludes every reader and every other writer, and active_readers always
      counts exactly the readers between their increment and decrement. */
  lemma ReaderWriterExclusion(states: seq<State>, events: seq<Event>, k: nat, t: nat)
    requires IsRun(states, events) && k < |states| && t < |states[k].pcs|
    ensures states[k].active == |set u: nat | u < |states[k].pcs| && IsCounted(states[k].pcs[u])|
    ensures Exclusive(states[k].pcs[t]) ==>
              states[k].active == 0
              && forall u: nat | u < |states[k].pcs| && u != t ::
                   !IsCounted(states[k].pcs[u]) && !Exclusive(states[k].pcs[u])
  {
    RunInv(states, events, k);
    var s := states[k];
    var counted := set u: nat | u < |s.pcs| && IsCounted(s.pcs[u]);
    assert ThreadOk(s, t);
    forall u: nat | u < |s.pcs|
      ensures IsCounted(s.pcs[u]) <==> u in s.inside
      ensures HoldsWriterLock(s.pcs[u]) <==> s.writer == u
    {
      assert ThreadOk(s, u);
    }
    InsideIsCounted(states, events, k);
    assert counted == s.inside;
  }

  lemma {:induction false} InsideIsCounted(states: seq<State>, events: seq<Event>, k: nat)
    requires IsRun(states, events) && k < |states|
    ensures forall u: nat | u in states[k].inside :: u < |states[k].pcs|
  {
    if k > 0 {
      InsideIsCounted(states, events, k - 1);
      assert MovesAt(states, events, k - 1);
    }
  }

  /** However shared unlocks overwrite the clock of the lock, it dominates the clock of the last exclusive
      unlock, and so does everyone who has since locked it, shared or exclusive. */
  lemma LastWriterDominated(states: seq<State>, events: seq<Event>, k: nat, t: nat)
    requires IsRun(states, events) && k < |states| && t < |states[k].pcs| && t < |states[k].clocks|
    ensures Leq(states[k].lastX, states[k].loc)
    ensures states[k].pcs[t].Reading? || states[k].pcs[t].Writing? ==> Leq(states[k].lastX, states[k].clocks[t])
    ensures states[k].pcs[t].Writing? ==> Leq(states[k].loc, states[k].clocks[t])
  {
    RunInv(states, events, k);
    assert ClockOk(states[k], t);
  }

  /** While a writer merges the clock of the lock, nobody writes to it. */
  lemma WriterMergesStable(states: seq<State>, events: seq<Event>, k: nat, t: nat)
    requires IsRun(states, events) && k < |events| && t < |states[k].pcs| && states[k].pcs[t].XJoining?
    ensures states[k + 1].loc == states[k].loc
  {
    RunInv(states, events, k);
    assert MovesAt(states, events, k);
    assert ThreadOk(states[k], t) && ThreadOk(states[k], events[k].t);
  }
}
