/**
 What becomes of the clock that a reader of CXLSharedMutex leaves on the lock, when any number of shared
 unlocks overwrite it element by element, in any order.
 */
module SharedUnlocks {
  import opened Clocks
  import opened CxlSharedMutex

  lemma {:induction false} WritesGrow(states: seq<State>, events: seq<Event>, j: nat, k: nat)
    requires IsRun(states, events) && j <= k < |states|
    ensures states[j].writes <= states[k].writes
    decreases k
  {
    if j < k {
      WritesGrow(states, events, j, k - 1);
      RunInv(states, events, k - 1);
      assert MovesAt(states, events, k - 1);
      StepKeepsInv(states[k - 1], events[k - 1].t, events[k - 1].a);
    }
  }

  /** One of the writes from number `from` on was thread t's of element i, with the value it has now. */
  ghost predicate Wrote(s: State, from: nat, t: nat, i: nat)
    requires Shape(s) && t < |s.pcs| && i < s.nodes
  {
    exists n: nat | from <= n < |s.writes| :: s.writes[n] == Write(t, i, s.clocks[t][i])
  }

  ghost predicate WroteAll(s: State, from: nat, t: nat, j: nat)
    requires Shape(s) && t < |s.pcs|
  {
    forall i: nat | i < j && i < s.nodes :: Wrote(s, from, t, i)
  }

  lemma WroteStays(s: State, s': State, t: nat, from: nat, j: nat)
    requires Shape(s) && Shape(s') && t < |s.pcs| && t < |s'.pcs| && s'.nodes == s.nodes
    requires s'.clocks[t] == s.clocks[t] && s.writes <= s'.writes && WroteAll(s, from, t, j)
    ensures WroteAll(s', from, t, j)
  {
    forall i: nat | i < j && i < s.nodes ensures Wrote(s', from, t, i) {
      assert Wrote(s, from, t, i);
      var n: nat :| from <= n < |s.writes| && s.writes[n] == Write(t, i, s.clocks[t][i]);
      assert s'.writes[n] == s.writes[n];
    }
  }

  /** What a step does to a thread that is storing: nothing, unless it is the next of its own stores. */
  lemma StepStores(s: State, t: nat, u: nat, a: Action)
    requires Possible(s, u, a) && t < |s.pcs| && s.pcs[t].Storing? && Apply(s, u, a).pcs[t].Storing?
    ensures var s', j := Apply(s, u, a), s.pcs[t].j;
            && s'.clocks[t] == s.clocks[t] && s'.nodes == s.nodes
            && (s'.pcs[t].j == j
                || (s'.pcs[t].j == j + 1 && j < s.nodes && s'.writes == s.writes + [Write(t, j, s.clocks[t][j])]))
  {
  }

  lemma StepWrote(s: State, t: nat, u: nat, a: Action, from: nat, j: nat)
    requires Inv(s) && Possible(s, u, a) && t < |s.pcs| && s.pcs[t] == Storing(j) && from <= |s.writes|
    requires Apply(s, u, a).pcs[t].Storing? && WroteAll(s, from, t, j)
    ensures var s' := Apply(s, u, a);
            && Shape(s') && s'.nodes == s.nodes && s'.clocks[t] == s.clocks[t]
            && WroteAll(s', from, t, s'.pcs[t].j)
  {
    var s' := Apply(s, u, a);
    StepShape(s, u, a);
    StepWrites(s, u, a);
    StepStores(s, t, u, a);
    WroteStays(s, s', t, from, j);
    if s'.pcs[t].j > j {
      assert s'.writes[|s.writes|] == Write(t, j, s'.clocks[t][j]);
      assert Wrote(s', from, t, j);
    }
  }

  /** Between states b and m thread t is in its unlock_shared. */
  ghost predicate Unlocking(states: seq<State>, events: seq<Event>, b: nat, m: nat, t: nat) {
    && IsRun(states, events) && b < m < |states|
    && events[b] == Event(t, UnlockShared)
    && forall x: nat | b < x <= m :: t < |states[x].pcs| && states[x].pcs[t].Storing?
  }

  lemma {:induction false} UnlockWrites(states: seq<State>, events: seq<Event>, b: nat, m: nat, t: nat)
    requires Unlocking(states, events, b, m, t)
    ensures Shape(states[m]) && t < |states[m].pcs| && states[m].pcs[t].Storing?
    ensures WroteAll(states[m], |states[b].writes|, t, states[m].pcs[t].j)
    decreases m
  {
    RunInv(states, events, m - 1);
    RunInv(states, events, m);
    assert MovesAt(states, events, m - 1);
    if m - 1 > b {
      UnlockWrites(states, events, b, m - 1, t);
      WritesGrow(states, events, b, m - 1);
      StepWrote(states[m - 1], t, events[m - 1].t, events[m - 1].a, |states[b].writes|, states[m - 1].pcs[t].j);
    }
  }

  /** Element i was last written by a write from number `from` on. */
  ghost predicate LastFrom(writes: seq<Write>, from: nat, i: nat) {
    exists n: nat | from <= n < |writes| :: IsLast(writes, i, n)
  }

  lemma {:induction false} LastExists(writes: seq<Write>, from: nat, i: nat, n: nat)
    requires from <= n < |writes| && writes[n].i == i
    ensures LastFrom(writes, from, i)
    decreases |writes| - n
  {
    if m: nat :| n < m < |writes| && writes[m].i == i {
      LastExists(writes, from, i, m);
    } else {
      assert IsLast(writes, i, n);
    }
  }

  /** Every element was last written since the beginning of t's unlock. */
  lemma LastSince(states: seq<State>, events: seq<Event>, b: nat, m: nat, k: nat, t: nat, i: nat)
    requires Unlocking(states, events, b, m, t) && m <= k < |states|
    requires states[m].pcs[t].j >= states[m].nodes && i < states[m].nodes
    ensures LastFrom(states[k].writes, |states[b].writes|, i)
  {
    var from, s := |states[b].writes|, states[m];
    UnlockWrites(states, events, b, m, t);
    WritesGrow(states, events, m, k);
    assert Wrote(s, from, t, i);
    var n: nat :| from <= n < |s.writes| && s.writes[n] == Write(t, i, s.clocks[t][i]);
    assert states[k].writes[n] == s.writes[n];
    LastExists(states[k].writes, from, i, n);
  }

  lemma {:induction false} SameNodes(states: seq<State>, events: seq<Event>, j: nat, k: nat)
    requires IsRun(states, events) && j <= k < |states|
    ensures states[k].nodes == states[j].nodes
    decreases k
  {
    if j < k {
      SameNodes(states, events, j, k - 1);
      assert MovesAt(states, events, k - 1);
    }
  }

  /** Write number n does not take away what c published. */
  ghost predicate Keeps(s: State, c: Clock, n: nat)
    requires n < |s.writes|
  {
    s.writes[n].i < |c| ==> c[s.writes[n].i] <= s.writes[n].v
  }

  /**
   What a shared unlock published, its clock c, is still on the lock exactly if, for each element, the last of
   all writes since the unlock began, its own included, was by a thread that knew as much of it.
   */
  lemma UnlockKeptIff(states: seq<State>, events: seq<Event>, b: nat, m: nat, k: nat, t: nat)
    requires Unlocking(states, events, b, m, t) && m <= k < |states|
    requires states[m].pcs[t].j >= states[m].nodes
    ensures t < |states[m].clocks| && states[b].writes <= states[k].writes
    ensures forall i: nat | i < states[m].nodes :: LastFrom(states[k].writes, |states[b].writes|, i)
    ensures Leq(states[m].clocks[t], states[k].loc) <==>
            forall i: nat, n: nat | |states[b].writes| <= n && IsLast(states[k].writes, i, n) ::
              Keeps(states[k], states[m].clocks[t], n)
  {
    RunInv(states, events, m);
    RunInv(states, events, k);
    SameNodes(states, events, m, k);
    WritesGrow(states, events, b, k);
    var c, s := states[m].clocks[t], states[k];
    forall i: nat | i < states[m].nodes ensures LastFrom(s.writes, |states[b].writes|, i) {
      LastSince(states, events, b, m, k, t, i);
    }
    KeptIff(s, c, |states[b].writes|);
  }

  lemma KeptIff(s: State, c: Clock, from: nat)
    requires Shape(s) && WritesOk(s) && |c| == s.nodes
    requires forall i: nat | i < s.nodes :: LastFrom(s.writes, from, i)
    ensures Leq(c, s.loc) <==> forall i: nat, n: nat | from <= n && IsLast(s.writes, i, n) :: Keeps(s, c, n)
  {
    if forall i: nat, n: nat | from <= n && IsLast(s.writes, i, n) :: Keeps(s, c, n) {
      forall i: nat | i < |c| ensures c[i] <= s.loc[i] {
        assert LastFrom(s.writes, from, i);
        var n: nat :| from <= n < |s.writes| && IsLast(s.writes, i, n);
        assert Keeps(s, c, n);
      }
    }
  }

  /** It stays as long as everybody who writes to the lock from then on knows as much; whoever holds the lock
      exclusively then dominates the reader's clock. */
  lemma UnlockStays(states: seq<State>, events: seq<Event>, b: nat, m: nat, k: nat, t: nat)
    requires Unlocking(states, events, b, m, t) && m <= k < |states|
    requires states[m].pcs[t].j >= states[m].nodes
    requires forall n: nat | |states[b].writes| <= n < |states[k].writes| && t < |states[m].clocks| ::
               Keeps(states[k], states[m].clocks[t], n)
    ensures t < |states[m].clocks| && |states[k].clocks| == |states[k].pcs|
    ensures Leq(states[m].clocks[t], states[k].loc)
    ensures forall u: nat | u < |states[k].pcs| && states[k].pcs[u].Writing? ::
              Leq(states[m].clocks[t], states[k].clocks[u])
  {
    RunInv(states, events, k);
    UnlockKeptIff(states, events, b, m, k, t);
    forall u: nat | u < |states[k].pcs| && states[k].pcs[u].Writing?
      ensures Leq(states[m].clocks[t], states[k].clocks[u])
    {
      assert ClockOk(states[k], u);
    }
  }

  // ---- two unlocks, and a run that loses one ----

  /** The steps of unlock_shared by t, from element j on, with nobody in between. */
  ghost function FinishUnlockShared(s: State, t: nat): State
    requires Shape(s) && t < |s.pcs| && s.pcs[t].Storing?
    decreases s.nodes - s.pcs[t].j
  {
    var s' := Apply(s, t, Store);
    if s.pcs[t].j >= s.nodes then Apply(s', t, CountOut) else FinishUnlockShared(s', t)
  }

  ghost function RunUnlockShared(s: State, t: nat): State
    requires Shape(s) && t < |s.pcs| && s.pcs[t].Reading?
  {
    FinishUnlockShared(Apply(s, t, UnlockShared), t)
  }

  lemma {:induction false} FinishedUnlock(s: State, t: nat)
    requires Shape(s) && t < |s.pcs| && s.pcs[t].Storing? && s.pcs[t].j <= s.nodes
    requires LeqUpto(s.clocks[t], s.loc, s.pcs[t].j) && LeqUpto(s.loc, s.clocks[t], s.pcs[t].j)
    ensures var s' := FinishUnlockShared(s, t);
            && Shape(s') && s'.loc == s.clocks[t] && s'.clocks == s.clocks && s'.nodes == s.nodes
            && s'.pcs == s.pcs[t := Out]
    decreases s.nodes - s.pcs[t].j
  {
    var j := s.pcs[t].j;
    if j < s.nodes {
      var s1 := Apply(s, t, Store);
      FinishedUnlock(s1, t);
      assert s1.pcs[t := Out] == s.pcs[t := Out];
    } else {
      assert s.loc == s.clocks[t];
      assert s.pcs[t := Uncounting(false)][t := Out] == s.pcs[t := Out];
    }
  }

  /** With nobody in between, the lock is left with the clock of the reader. */
  lemma UnlocksTo(s: State, t: nat)
    requires Shape(s) && t < |s.pcs| && s.pcs[t].Reading?
    ensures var s' := RunUnlockShared(s, t);
            && Shape(s') && s'.loc == s.clocks[t] && s'.clocks == s.clocks && s'.nodes == s.nodes
            && s'.pcs == s.pcs[t := Out]
  {
    FinishedUnlock(Apply(s, t, UnlockShared), t);
    assert s.pcs[t := Storing(0)][t := Out] == s.pcs[t := Out];
  }

  /** When readers t and u unlock one after the other, the lock keeps what t published exactly if u's clock
      dominates it. */
  lemma LastSharedUnlockWins(s: State, t: nat, u: nat)
    requires Shape(s) && t < |s.pcs| && u < |s.pcs| && t != u && s.pcs[t].Reading? && s.pcs[u].Reading?
    ensures RunUnlockShared(s, t).pcs == s.pcs[t := Out] && Shape(RunUnlockShared(s, t))
    ensures RunUnlockShared(s, t).loc == s.clocks[t]
    ensures var s' := RunUnlockShared(RunUnlockShared(s, t), u);
            s'.loc == s.clocks[u] && (Leq(s.clocks[t], s'.loc) <==> Leq(s.clocks[t], s.clocks[u]))
  {
    UnlocksTo(s, t);
    UnlocksTo(RunUnlockShared(s, t), u);
  }

  ghost predicate Reachable(s: State) {
    exists states: seq<State>, events: seq<Event> :: IsRun(states, events) && states[|events|] == s
  }

  lemma Extend(s: State, t: nat, a: Action)
    requires Reachable(s) && Possible(s, t, a)
    ensures Reachable(Apply(s, t, a))
  {
    var states: seq<State>, events: seq<Event> :| IsRun(states, events) && states[|events|] == s;
    var states', events' := states + [Apply(s, t, a)], events + [Event(t, a)];
    forall k: nat | k < |events'| ensures MovesAt(states', events', k) {
      if k < |events| {
        assert MovesAt(states, events, k);
      }
    }
    assert states'[|events'|] == Apply(s, t, a);
  }

  lemma {:induction false} FinishReachable(s: State, t: nat)
    requires Reachable(s) && Shape(s) && t < |s.pcs| && s.pcs[t].Storing?
    ensures Reachable(FinishUnlockShared(s, t))
    decreases s.nodes - s.pcs[t].j
  {
    var s' := Apply(s, t, Store);
    Extend(s, t, Store);
    if s.pcs[t].j >= s.nodes {
      Extend(s', t, CountOut);
    } else {
      FinishReachable(s', t);
    }
  }

  lemma UnlockReachable(s: State, t: nat)
    requires Reachable(s) && Shape(s) && t < |s.pcs| && s.pcs[t].Reading?
    ensures Reachable(RunUnlockShared(s, t))
  {
    Extend(s, t, UnlockShared);
    FinishReachable(Apply(s, t, UnlockShared), t);
  }

  /** lock_shared of a thread on a system of one node, when the lock is free for readers. */
  lemma ReaderEnters(s: State, t: nat) returns (s': State)
    requires Reachable(s) && Shape(s) && s.nodes == 1 && t < |s.pcs| && s.pcs[t].Out? && s.writer == -1
    requires s.loc == [0] && s.clocks[t] == [0]
    ensures Reachable(s') && Shape(s') && s'.nodes == 1 && s'.writer == -1 && s'.loc == [0]
    ensures s'.clocks == s.clocks && s'.pcs == s.pcs[t := Reading]
  {
    s' := s;
    Extend(s', t, BeginShared(false));
    s' := Apply(s', t, BeginShared(false));
    Extend(s', t, TakeShared);
    s' := Apply(s', t, TakeShared);
    Extend(s', t, CountIn);
    s' := Apply(s', t, CountIn);
    Extend(s', t, DropWriterLock);
    s' := Apply(s', t, DropWriterLock);
    s' := ReaderJoins(s', t);
    assert s'.pcs == s.pcs[t := Reading];
  }

  lemma ReaderJoins(s: State, t: nat) returns (s': State)
    requires Reachable(s) && Shape(s) && s.nodes == 1 && t < |s.pcs| && s.pcs[t] == Joining(false, 0)
    requires s.loc == [0] && s.clocks[t] == [0]
    ensures Reachable(s') && s' == s.(pcs := s'.pcs) && s'.pcs == s.pcs[t := Reading]
  {
    Extend(s, t, Join);
    s' := Apply(s, t, Join);
    assert s.clocks[t][0 := 0] == s.clocks[t];
    assert s'.clocks == s.clocks;
    Extend(s', t, Join);
    s' := Apply(s', t, Join);
    assert s'.pcs == s.pcs[t := Reading];
  }

  lemma BothInside() returns (s: State)
    ensures Reachable(s) && Shape(s) && s.pcs == [Reading, Reading] && s.clocks == [[1], [0]]
  {
    s := State(1, -1, 0, [0], [[0], [0]], [Out, Out], {}, [0], []);
    var none: seq<Event> := [];
    assert IsRun([s], none) && [s][|none|] == s;
    s := ReaderEnters(s, 0);
    s := ReaderEnters(s, 1);
    Extend(s, 0, Grow([1]));
    s := Apply(s, 0, Grow([1]));
  }

  /** Two readers inside the lock, the first of which has learned something.  It unlocks, then the other one
      does; the lock, now free, has lost what the first one released. */
  lemma SharedUnlockLost() returns (s: State, s1: State, s2: State)
    ensures Reachable(s) && Shape(s) && s.pcs == [Reading, Reading] && s.clocks[0] == [1]
    ensures s1 == RunUnlockShared(s, 0) && Reachable(s1) && s1.pcs == [Out, Reading] && s1.loc == [1]
    ensures Shape(s1) && s2 == RunUnlockShared(s1, 1) && Reachable(s2) && s2.pcs == [Out, Out]
    ensures s2.loc == [0] && !Leq(s.clocks[0], s2.loc)
  {
    s := BothInside();
    s1 := RunUnlockShared(s, 0);
    UnlockReachable(s, 0);
    UnlocksTo(s, 0);
    s2 := RunUnlockShared(s1, 1);
    UnlockReachable(s1, 1);
    UnlocksTo(s1, 1);
  }
}
