/**
 CXLSharedMutex as an object: lock_shared, unlock_shared, lock and unlock as they are written, with other threads
 allowed to take any steps in between.  What others may do is the contract of Interfere; its callers know nothing
 else about it.  `writer` stands for the queue lock inside.
 */
module SharedMutexObject {
  import opened Clocks
  import opened CxlSharedMutex

  /** The invariant as a fact that is looked into only through the lemmas below.  The number k means nothing; the
      recursion on it only keeps the definition from unfolding. */
  ghost predicate Good(s: State, k: nat) {
    if k == 0 then Inv(s) else Good(s, k - 1)
  }

  lemma {:induction false} GoodIsInv(s: State, k: nat)
    ensures Good(s, k) == Inv(s)
  {
    if k > 0 {
      GoodIsInv(s, k - 1);
    }
  }

  lemma StepGood(s: State, t: nat, a: Action)
    requires Good(s, |s.pcs|) && Possible(s, t, a)
    ensures var s' := Apply(s, t, a);
            && Good(s', |s'.pcs|) && Shape(s') && |s'.pcs| == |s.pcs|
            && s' == s.(writer := s'.writer, active := s'.active, loc := s'.loc, clocks := s'.clocks,
                        pcs := s'.pcs, inside := s'.inside, lastX := s'.lastX, writes := s'.writes)
            && s.writes <= s'.writes
  {
    GoodIsInv(s, |s.pcs|);
    StepKeepsInv(s, t, a);
    GoodIsInv(Apply(s, t, a), |Apply(s, t, a).pcs|);
  }

  /** Where a thread is after it has looked at the queue lock. */
  function Took(wanting: Pc, ok: bool): Pc
    requires wanting.WantShared? || wanting.WantExclusive?
  {
    if !ok then wanting else if wanting.WantShared? then Entering(wanting.pre) else Draining
  }

  ghost predicate Wrote(writes: seq<Write>, from: nat, w: Write) {
    exists n: nat | from <= n < |writes| :: writes[n] == w
  }

  /** From write number `from` on, thread t has written the first j elements of clock c. */
  ghost predicate WroteUpto(writes: seq<Write>, from: nat, t: nat, c: Clock, j: nat) {
    forall i: nat | i < j && i < |c| :: Wrote(writes, from, Write(t, i, c[i]))
  }

  lemma WroteMore(writes: seq<Write>, writes': seq<Write>, from: nat, t: nat, c: Clock, j: nat)
    requires writes <= writes' && WroteUpto(writes, from, t, c, j)
    ensures WroteUpto(writes', from, t, c, j)
  {
    forall i: nat | i < j && i < |c| ensures Wrote(writes', from, Write(t, i, c[i])) {
      assert Wrote(writes, from, Write(t, i, c[i]));
      var n: nat :| from <= n < |writes| && writes[n] == Write(t, i, c[i]);
      assert writes'[n] == writes[n];
    }
  }

  lemma WroteFewer(writes: seq<Write>, from: nat, from': nat, t: nat, c: Clock, j: nat)
    requires from <= from' && WroteUpto(writes, from', t, c, j)
    ensures WroteUpto(writes, from, t, c, j)
  {
    forall i: nat | i < j && i < |c| ensures Wrote(writes, from, Write(t, i, c[i])) {
      assert Wrote(writes, from', Write(t, i, c[i]));
    }
  }

  lemma WroteNext(writes: seq<Write>, from: nat, t: nat, c: Clock, j: nat)
    requires WroteUpto(writes, from, t, c, j) && from <= |writes| && j < |c|
    ensures WroteUpto(writes + [Write(t, j, c[j])], from, t, c, j + 1)
  {
    var writes' := writes + [Write(t, j, c[j])];
    WroteMore(writes, writes', from, t, c, j);
    assert writes'[|writes|] == Write(t, j, c[j]);
  }

  /** A step of another thread does what Interfere promises to thread t. */
  lemma OthersInterfere(s: State, t: nat, u: nat, a: Action)
    requires Good(s, |s.pcs|) && Possible(s, u, a) && t < |s.pcs| && u != t
    ensures var s' := Apply(s, u, a);
            && Good(s', |s'.pcs|) && Shape(s') && |s'.pcs| == |s.pcs|
            && s'.pcs[t] == s.pcs[t] && s'.clocks[t] == s.clocks[t] && s.writes <= s'.writes
  {
    StepGood(s, u, a);
  }

  class CXLSharedMutex {
    const nodes: nat
    var writer: int
    var active: int
    var loc: Clock                // inner->clock
    var clocks: seq<Clock>        // the thread clocks

    ghost var pcs: seq<Pc>
    ghost var inside: set<nat>
    ghost var lastX: Clock
    ghost var writes: seq<Write>

    ghost function View(): State
      reads this
    {
      State(nodes, writer, active, loc, clocks, pcs, inside, lastX, writes)
    }

    ghost predicate Valid()
      reads this
    {
      Good(View(), |pcs|) && Shape(View())
    }

    ghost predicate At(t: nat, pc: Pc)
      reads this
    {
      t < |pcs| && pcs[t] == pc
    }

    constructor (nodes: nat, threads: nat)
      ensures Valid() && |pcs| == threads && forall t: nat | t < threads :: pcs[t] == Out
    {
      this.nodes := nodes;
      writer, active, loc, clocks := -1, 0, Zero(nodes), seq(threads, _ => Zero(nodes));
      pcs, inside, lastX, writes := seq(threads, _ => Out), {}, Zero(nodes), [];
      new;
      GoodIsInv(View(), |pcs|);
    }

    /** Any number of steps of threads other than t. */
    method Interfere(ghost t: nat)
      requires Valid() && t < |pcs|
      modifies this
      ensures Valid() && |pcs| == |old(pcs)| && pcs[t] == old(pcs[t]) && clocks[t] == old(clocks[t])
      ensures old(writes) <= writes
    {
    }

    /** The shared fields have just been changed by action a of thread t. */
    ghost method Did(t: nat, a: Action, before: State)
      requires Good(before, |before.pcs|) && Possible(before, t, a)
      requires View() == before.(writer := writer, active := active, loc := loc, clocks := clocks)
      requires var s := Apply(before, t, a);
               writer == s.writer && active == s.active && loc == s.loc && clocks == s.clocks
      modifies this`pcs, this`inside, this`lastX, this`writes
      ensures View() == Apply(before, t, a) && Valid() && |pcs| == |old(pcs)| && old(writes) <= writes
    {
      var s := Apply(before, t, a);
      StepGood(before, t, a);
      pcs, inside, lastX, writes := s.pcs, s.inside, s.lastX, s.writes;
    }

    // ---- the atomic actions ----

    ghost method StartShared(t: nat, pre: bool)
      requires Valid() && At(t, Out)
      modifies this
      ensures Valid() && At(t, WantShared(pre))
    {
      Did(t, BeginShared(pre), View());
    }

    /** One look at the queue lock, for a reader or a writer that wants it. */
    method TryWriterLock(t: nat) returns (ok: bool)
      requires Valid() && t < |pcs| && (pcs[t].WantShared? || pcs[t].WantExclusive?)
      modifies this
      ensures Valid() && At(t, Took(old(pcs[t]), ok)) && (!ok ==> writer >= 0)
    {
      ghost var s := View();
      if writer >= 0 {
        return false;
      }
      writer := t;
      Did(t, if s.pcs[t].WantShared? then TakeShared else TakeExclusive, s);
      return true;
    }

    method CountReader(t: nat, ghost pre: bool)
      requires Valid() && At(t, Entering(pre))
      modifies this
      ensures Valid() && At(t, Counted(pre)) && active == old(active) + 1
    {
      ghost var s := View();
      active := active + 1;
      Did(t, CountIn, s);
    }

    method ReleaseWriterLock(t: nat, ghost pre: bool)
      requires Valid() && At(t, Counted(pre))
      modifies this
      ensures Valid() && At(t, Joining(pre, 0)) && writer == -1
    {
      ghost var s := View();
      writer := -1;
      Did(t, DropWriterLock, s);
    }

    method UncountReader(t: nat, ghost pre: bool)
      requires Valid() && At(t, Uncounting(pre))
      modifies this
      ensures Valid() && At(t, if pre then WantExclusive else Out) && active == old(active) - 1
      ensures writes == old(writes) && loc == old(loc)
    {
      ghost var s := View();
      active := active - 1;
      Did(t, CountOut, s);
    }

    /** thread_clock.merge(inner->clock), element j, or the end of that loop. */
    method JoinElement(t: nat, j: nat)
      requires Valid() && t < |pcs|
      requires (pcs[t].Joining? || pcs[t].XJoining?) && pcs[t].j == j
      modifies this
      ensures Valid() && |pcs| == |old(pcs)| && loc == old(loc)
      ensures j < nodes ==> At(t, old(pcs[t]).(j := j + 1))
      ensures j >= nodes ==>
                At(t, if old(pcs[t]).XJoining? then Writing else if old(pcs[t]).pre then Uncounting(true) else Reading)
    {
      ghost var s := View();
      if j < nodes {
        var c: Clock := clocks[t][j := Max(clocks[t][j], loc[j])];
        clocks := clocks[t := c];
      }
      Did(t, Join, s);
    }

    /** inner->clock = thread_clock, element j, or the end of that loop. */
    method StoreElement(t: nat, j: nat)
      requires Valid() && t < |pcs|
      requires (pcs[t].Storing? || pcs[t].XStoring?) && pcs[t].j == j
      modifies this
      ensures Valid() && |pcs| == |old(pcs)| && clocks == old(clocks)
      ensures writes == old(writes) + if j < nodes then [Write(t, j, clocks[t][j])] else []
      ensures j < nodes ==> At(t, old(pcs[t]).(j := j + 1))
      ensures j >= nodes ==> At(t, if old(pcs[t]).XStoring? then XUnlocking else Uncounting(false))
    {
      ghost var s := View();
      if j < nodes {
        var l: Clock := loc[j := clocks[t][j]];
        loc := l;
      }
      Did(t, Store, s);
    }

    /** thread_release has raised the thread clock to c. */
    method RaiseClock(t: nat, c: Clock)
      requires Valid() && t < |pcs| && (pcs[t].Reading? || pcs[t].Writing?) && Leq(clocks[t], c)
      modifies this
      ensures Valid() && At(t, old(pcs[t])) && clocks[t] == c && writes == old(writes)
    {
      ghost var s := View();
      clocks := clocks[t := c];
      Did(t, Grow(c), s);
    }

    /** One look at active_readers. */
    method TryDrained(t: nat) returns (ok: bool)
      requires Valid() && At(t, Draining)
      modifies this
      ensures Valid() && At(t, if ok then XJoining(0) else Draining) && (!ok ==> active > 0)
    {
      ok := active <= 0;
      if ok {
        Did(t, SeeDrained, View());
      }
    }

    ghost method StartUnlock(t: nat)
      requires Valid() && t < |pcs| && (pcs[t].Reading? || pcs[t].Writing?)
      modifies this
      ensures Valid() && At(t, if old(pcs[t]).Reading? then Storing(0) else XStoring(0)) && clocks == old(clocks)
      ensures writes == old(writes)
    {
      Did(t, if pcs[t].Reading? then UnlockShared else Unlock, View());
    }

    method ReleaseExclusive(t: nat)
      requires Valid() && At(t, XUnlocking)
      modifies this
      ensures Valid() && At(t, Out) && lastX == clocks[t] && clocks == old(clocks) && loc == old(loc)
    {
      ghost var s := View();
      writer := -1;
      Did(t, Release, s);
    }

    // ---- the loops ----

    lemma LastWritesHold()
      requires Valid()
      ensures |loc| == nodes
      ensures forall i: nat, n: nat | i < nodes && IsLast(writes, i, n) :: loc[i] == writes[n].v
    {
      GoodIsInv(View(), |pcs|);
    }

    method TakeWriterLock(t: nat, patience: nat) returns (ok: bool)
      requires Valid() && t < |pcs| && (pcs[t].WantShared? || pcs[t].WantExclusive?)
      modifies this
      ensures Valid() && At(t, Took(old(pcs[t]), ok)) && (!ok && patience > 0 ==> writer >= 0)
    {
      var left := patience;
      ok := false;
      while !ok && left > 0
        invariant Valid()
        invariant At(t, Took(old(pcs[t]), ok)) && (!ok && left < patience ==> writer >= 0)
        decreases left
      {
        Interfere(t);
        ok := TryWriterLock(t);
        left := left - 1;
      }
    }

    method JoinAll(t: nat)
      requires Valid() && t < |pcs| && (pcs[t].Joining? || pcs[t].XJoining?) && pcs[t].j == 0
      modifies this
      ensures Valid()
      ensures At(t, if old(pcs[t]).XJoining? then Writing else if old(pcs[t]).pre then Uncounting(true) else Reading)
    {
      var j := 0;
      while j < nodes
        invariant j <= nodes && Valid() && At(t, old(pcs[t]).(j := j))
      {
        Interfere(t);
        JoinElement(t, j);
        j := j + 1;
      }
      Interfere(t);
      JoinElement(t, j);
    }

    method StoreOne(t: nat, j: nat, ghost from: nat, ghost c: Clock)
      requires Valid() && t < |pcs| && (pcs[t].Storing? || pcs[t].XStoring?) && pcs[t].j == j < nodes
      requires c == clocks[t] && from <= |writes| && WroteUpto(writes, from, t, c, j)
      modifies this
      ensures Valid() && At(t, old(pcs[t]).(j := j + 1)) && clocks[t] == c
      ensures old(writes) <= writes && WroteUpto(writes, from, t, c, j + 1)
    {
      ghost var before := writes;
      Interfere(t);
      WroteMore(before, writes, from, t, c, j);
      ghost var mid := writes;
      StoreElement(t, j);
      WroteNext(mid, from, t, c, j);
    }

    method StoreAll(t: nat)
      requires Valid() && t < |pcs| && (pcs[t].Storing? || pcs[t].XStoring?) && pcs[t].j == 0
      modifies this
      ensures Valid() && At(t, if old(pcs[t]).XStoring? then XUnlocking else Uncounting(false))
      ensures clocks[t] == old(clocks[t])
      ensures old(writes) <= writes && WroteUpto(writes, |old(writes)|, t, clocks[t], nodes)
    {
      var j := 0;
      while j < nodes
        invariant j <= nodes && Valid() && At(t, old(pcs[t]).(j := j)) && clocks[t] == old(clocks[t])
        invariant old(writes) <= writes && WroteUpto(writes, |old(writes)|, t, clocks[t], j)
      {
        StoreOne(t, j, |old(writes)|, clocks[t]);
        j := j + 1;
      }
      ghost var before := writes;
      Interfere(t);
      StoreElement(t, j);
      WroteMore(before, writes, |old(writes)|, t, clocks[t], nodes);
    }

    // ---- the operations ----

    /** A reader inside the lock: no writer is, and the reader knows the last exclusive unlock. */
    ghost predicate HoldsShared(t: nat)
      reads this
    {
      && At(t, Reading) && t < |clocks| && Leq(lastX, clocks[t])
      && forall u: nat | u < |pcs| :: !Exclusive(pcs[u])
    }

    /** A writer inside the lock: nobody else is, and the writer knows the clock of the lock. */
    ghost predicate HoldsExclusive(t: nat)
      reads this
    {
      && At(t, Writing) && t < |clocks| && Leq(lastX, loc) && Leq(loc, clocks[t]) && active == 0
      && forall u: nat | u < |pcs| && u != t :: !Exclusive(pcs[u]) && !IsCounted(pcs[u])
    }

    lemma Inside(t: nat)
      requires Valid() && t < |pcs|
      ensures pcs[t].Reading? ==> HoldsShared(t)
      ensures pcs[t].Writing? ==> HoldsExclusive(t)
    {
      GoodIsInv(View(), |pcs|);
      var s := View();
      assert ThreadOk(s, t) && ClockOk(s, t);
      forall u: nat | u < |pcs| && u != t && (pcs[t].Reading? || pcs[t].Writing?)
        ensures !Exclusive(pcs[u]) && (pcs[t].Writing? ==> !IsCounted(pcs[u]))
      {
        assert ThreadOk(s, u);
      }
    }

    /** lock_shared, and with `pre` the shared phase of lock */
    method LockSharedPhase(t: nat, pre: bool, patience: nat) returns (ok: bool)
      requires Valid() && At(t, Out)
      modifies this
      ensures Valid() && At(t, if !ok then WantShared(pre) else if pre then Uncounting(true) else Reading)
      ensures !ok && patience > 0 ==> writer >= 0
    {
      StartShared(t, pre);
      ok := TakeWriterLock(t, patience);
      if ok {
        Interfere(t);
        CountReader(t, pre);
        Interfere(t);
        ReleaseWriterLock(t, pre);
        JoinAll(t);
      }
    }

    method LockShared(t: nat, patience: nat) returns (ok: bool)
      requires Valid() && At(t, Out)
      modifies this
      ensures Valid() && if ok then HoldsShared(t) else At(t, WantShared(false)) && (patience > 0 ==> writer >= 0)
    {
      ok := LockSharedPhase(t, false, patience);
      if ok {
        Inside(t);
      }
    }

    /** lock: a shared phase, then the exclusive one */
    method Lock(t: nat, patience: nat) returns (ok: bool)
      requires Valid() && At(t, Out)
      modifies this
      ensures Valid() && (ok ==> HoldsExclusive(t))
      ensures !ok ==> t < |pcs| && (pcs[t] == WantShared(true) || pcs[t] == WantExclusive || pcs[t] == Draining)
      ensures !ok && patience > 0 ==> if pcs[t].Draining? then active > 0 else writer >= 0
    {
      ok := LockSharedPhase(t, true, patience);
      if !ok {
        return;
      }
      Interfere(t);
      UncountReader(t, true);
      ok := TakeWriterLock(t, patience);
      if !ok {
        return;
      }
      ok := false;
      var left := patience;
      while !ok && left > 0
        invariant Valid() && At(t, if ok then XJoining(0) else Draining) && (!ok && left < patience ==> active > 0)
        decreases left
      {
        Interfere(t);
        ok := TryDrained(t);
        left := left - 1;
      }
      if ok {
        JoinAll(t);
        Inside(t);
      }
    }

    /** unlock_shared, after a release that raised the thread clock to c: it writes every element of c to the
        lock, where each element is what was last written to it, by this thread or another. */
    method UnlockSharedWith(t: nat, c: Clock)
      requires Valid() && At(t, Reading) && t < |clocks| && Leq(clocks[t], c)
      modifies this
      ensures Valid() && At(t, Out)
      ensures old(writes) <= writes && WroteUpto(writes, |old(writes)|, t, c, nodes)
      ensures |loc| == nodes && forall i: nat, n: nat | i < nodes && IsLast(writes, i, n) :: loc[i] == writes[n].v
    {
      RaiseClock(t, c);
      Interfere(t);
      StartUnlock(t);
      ghost var from := |writes|;
      StoreAll(t);
      ghost var before := writes;
      Interfere(t);
      UncountReader(t, false);
      WroteMore(before, writes, from, t, c, nodes);
      WroteFewer(writes, |old(writes)|, from, t, c, nodes);
      LastWritesHold();
    }

    /** unlock: the lock is left with exactly the clock of the thread. */
    method UnlockWith(t: nat, c: Clock)
      requires Valid() && At(t, Writing) && t < |clocks| && Leq(clocks[t], c)
      modifies this
      ensures Valid() && At(t, Out) && loc == lastX == c
    {
      RaiseClock(t, c);
      Interfere(t);
      StartUnlock(t);
      StoreAll(t);
      Interfere(t);
      LeavesClock(t);
      ReleaseExclusive(t);
    }

    lemma LeavesClock(t: nat)
      requires Valid() && At(t, XUnlocking)
      ensures loc == clocks[t]
    {
      GoodIsInv(View(), |pcs|);
      assert ClockOk(View(), t);
    }
  }
}
