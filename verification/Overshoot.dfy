/**
 The failing input of ByReference, as a run: a reader of CXLSharedMutex ends its acquire with a clock that
 vouches for a log its node has not consumed, while the node still caches the stale line.
 */
module Overshoot {
  import opened Clocks
  import opened Broadcast
  import opened Protocol
  import opened CoherenceTheorems
  import opened ByReference

  ghost predicate Reachable(s: State) {
    exists states: seq<State>, steps: seq<Step> :: IsRun(states, steps) && states[|steps|] == s
  }

  lemma Extend(s: State, step: Step)
    requires Reachable(s) && s.WF() && Possible(s, step) && Guarded(s, step)
    ensures Reachable(Apply(s, step))
  {
    var states: seq<State>, steps: seq<Step> :| IsRun(states, steps) && states[|steps|] == s;
    var states', steps' := states + [Apply(s, step)], steps + [step];
    forall k: nat | k < |steps'| ensures MovesAt(states', steps', k) {
      if k < |steps| {
        assert MovesAt(states, steps, k);
      }
    }
    assert states'[|steps'|] == Apply(s, step);
  }

  // The run of the counterexample.  Thread 0 on node 0, where line 1 is cached, enters lock_shared; thread 1
  // on node 1, inside the same lock, stores to line 1, releases and unlocks shared; location 0 is the lock.
  ghost function World(reader: Pc, c: nat, writer: Thread, copy: map<Line, Copy>, mem: map<Line, Data>,
                       latest: map<Line, Data>, ring: seq<Slot<set<Line>>>, loc: Clock): State
  {
    State(mem, latest,
          [Node(map[1 := Copy(map[], false)], [0, 0], [0, 0], Free), Node(copy, [0, 0], [0, 0], Free)],
          [Thread(0, {}, 0, [0, c], [0, 0], reader), writer], [[], ring], [loc])
  }

  ghost function Writer(dirty: set<Line>, recent: Line, c: nat, pc: Pc): Thread {
    Thread(1, dirty, recent, [0, c], [0, 0], pc)
  }

  ghost function StepOf(k: nat): Step
    requires k < 14
  {
    match k
    case 0 => ByThread(0, BeginAcquire(0, true))
    case 1 => ByThread(0, CheckNode(1))
    case 2 => ByThread(1, Store(1, 0, 7))
    case 3 => ByThread(1, BeginRelease)
    case 4 => ByThread(1, Writeback(1))
    case 5 => ByThread(1, Reserve)
    case 6 => ByThread(1, Commit)
    case 7 => ByThread(1, ClearTable)
    case 8 => ByThread(1, AssignClock)
    case 9 => ByThread(1, Publish(0, 1, false))
    case 10 => ByThread(0, BeginMerge)
    case _ => ByThread(0, MergeElement)
  }

  ghost function Stage(k: nat): State
    requires k <= 14
  {
    var zero: Clock := [0, 0];
    var idle := Writer({}, 0, 0, Idle);
    var waited := Acquiring(0, true, zero, zero, {1});
    var stored := map[1 := map[0 := 7]];
    var dirty := map[1 := Copy(map[0 := 7], true)];
    var clean := map[1 := Copy(map[0 := 7], false)];
    var log := [Committed(Log({1}, true))];
    match k
    case 0 => World(Idle, 0, idle, map[], map[], map[], [], zero)
    case 1 => World(Acquiring(0, true, zero, zero, {}), 0, idle, map[], map[], map[], [], zero)
    case 2 => World(waited, 0, idle, map[], map[], map[], [], zero)
    case 3 => World(waited, 0, Writer({1}, 1, 0, Idle), dirty, map[], stored, [], zero)
    case 4 => World(waited, 0, Writer({1}, 0, 0, Flushing(true, {}, 0)), dirty, map[], stored, [], zero)
    case 5 => World(waited, 0, Writer({1}, 0, 0, Flushing(true, {1}, 0)), clean, stored, stored, [], zero)
    case 6 => World(waited, 0, Writer({1}, 0, 0, Reserving(true, 0, 0)), clean, stored, stored, [Reserved], zero)
    case 7 => World(waited, 0, Writer({1}, 0, 0, Publishing(true, 0, 0)), clean, stored, stored, log, zero)
    case 8 => World(waited, 0, Writer({}, 0, 0, Assigning(0)), clean, stored, stored, log, zero)
    case 9 => World(waited, 0, Writer({}, 0, 1, Idle), clean, stored, stored, log, zero)
    case 10 => World(waited, 0, Writer({}, 0, 1, Idle), clean, stored, stored, log, [0, 1])
    case 11 => World(Merging(0, true, zero, zero, 0), 0, Writer({}, 0, 1, Idle), clean, stored, stored, log, [0, 1])
    case 12 => World(Merging(0, true, zero, zero, 1), 0, Writer({}, 0, 1, Idle), clean, stored, stored, log, [0, 1])
    case 13 => World(Merging(0, true, zero, zero, 2), 1, Writer({}, 0, 1, Idle), clean, stored, stored, log, [0, 1])
    case _ => World(Idle, 1, Writer({}, 0, 1, Idle), clean, stored, stored, log, [0, 1])
  }

  ghost predicate StageMoves(k: nat)
    requires k < 14
  {
    var s, s' := Stage(k), Stage(k + 1);
    && s.WF() && Possible(s, StepOf(k)) && Guarded(s, StepOf(k))
    && Same(Apply(s, StepOf(k)), s')
  }

  ghost predicate Same(s: State, s': State) {
    && s.mem == s'.mem && s.latest == s'.latest && s.nodes == s'.nodes && s.threads == s'.threads
    && s.rings == s'.rings && s.locs == s'.locs
  }

  lemma ReaderStarts()
    ensures StageMoves(0)
  {
    assert Zero(2) == [0, 0];
  }

  lemma ReaderWaits()
    ensures StageMoves(1)
  {
    assert [0, 0][1 := 0] == [0, 0] && {} + {1} == {1};
  }

  lemma WriterStores()
    ensures StageMoves(2)
  {
    var s := Apply(Stage(2), StepOf(2));
    assert s.threads[1].dirty == {1} && s.latest[1] == map[0 := 7];
    assert s.nodes[1].cache == map[1 := Copy(map[0 := 7], true)];
  }

  lemma WriterReleases()
    ensures StageMoves(3)
  {
  }

  lemma FlushApplies(s: State)
    requires s.WF() && |s.threads| > 1 && s.threads[1].pc.Flushing? && 1 in s.threads[1].dirty - s.threads[1].pc.wrote
    ensures Possible(s, ByThread(1, Writeback(1))) && Guarded(s, ByThread(1, Writeback(1)))
    ensures Apply(s, ByThread(1, Writeback(1))) == DoWriteback(s, 1, 1)
  {
  }

  lemma WriterFlushes()
    ensures StageMoves(4)
  {
    FlushApplies(Stage(4));
    var s := DoWriteback(Stage(4), 1, 1);
    assert s.threads[1].pc.wrote == {1};
    assert s.nodes[1].cache == map[1 := Copy(map[0 := 7], false)];
  }

  lemma WriterReserves()
    ensures StageMoves(5)
  {
    assert Stage(5).rings[1] + [Reserved] == Stage(6).rings[1];
  }

  lemma WriterCommits()
    ensures StageMoves(6)
  {
    assert Stage(6).rings[1][0 := Committed(Log({1}, true))] == Stage(7).rings[1];
  }

  lemma WriterAssigns()
    ensures StageMoves(8)
  {
    assert [0, 0][1 := 1] == [0, 1];
  }

  lemma WriterClears()
    ensures StageMoves(7)
  {
  }

  lemma WriterUnlocks()
    ensures StageMoves(9)
  {
    assert [0, 0][1 := 1] == [0, 1];
  }

  lemma ReaderMergesNext()
    ensures StageMoves(10)
  {
  }

  lemma MergeApplies(s: State)
    requires s.WF() && |s.threads| > 0 && s.threads[0].pc.Merging?
    ensures Possible(s, ByThread(0, MergeElement)) && Guarded(s, ByThread(0, MergeElement))
    ensures Apply(s, ByThread(0, MergeElement)) == DoMergeElement(s, 0)
  {
  }

  lemma ReaderMergesOwn()
    ensures StageMoves(11)
  {
    var c: Clock := [0, 0];
    assert c[0 := Max(c[0], 0)] == c;
    MergeApplies(Stage(11));
  }

  lemma ReaderMergesOther()
    ensures StageMoves(12)
  {
    var c: Clock := [0, 0];
    assert c[1 := Max(c[1], 1)] == [0, 1] && c[1 := Max(c[1], 0)] == c;
    MergeApplies(Stage(12));
  }

  lemma ReaderReturns()
    ensures StageMoves(13)
  {
  }

  lemma {:induction false} StageReachable(k: nat)
    requires k <= 14
    ensures Reachable(Stage(k))
  {
    if k == 0 {
      var s0 := Stage(0);
      assert Zero(2) == [0, 0];
      assert FreshNode(s0, 0) && FreshNode(s0, 1) && FreshThread(s0, 0) && FreshThread(s0, 1);
      var none: seq<Step> := [];
      assert IsRun([s0], none) && [s0][|none|] == s0;
    } else {
      StageReachable(k - 1);
      StageMovesOn(k - 1);
      Extend(Stage(k - 1), StepOf(k - 1));
    }
  }

  lemma StageMovesOn(k: nat)
    requires k < 14
    ensures StageMoves(k)
  {
    if k == 0 { ReaderStarts(); }
    else if k == 1 { ReaderWaits(); }
    else if k == 2 { WriterStores(); }
    else if k == 3 { WriterReleases(); }
    else if k == 4 { WriterFlushes(); }
    else if k == 5 { WriterReserves(); }
    else if k == 6 { WriterCommits(); }
    else if k == 7 { WriterClears(); }
    else if k == 8 { WriterAssigns(); }
    else if k == 9 { WriterUnlocks(); }
    else if k == 10 { ReaderMergesNext(); }
    else if k == 11 { ReaderMergesOwn(); }
    else if k == 12 { ReaderMergesOther(); }
    else { ReaderReturns(); }
  }

  /**
   A reader of a shared lock can end its acquire with a clock that vouches for a log its node has not
   consumed, while its node still caches the stale line: the other reader stored, released and wrote its
   clock to the lock between the reader's wait and its merge.
   */
  lemma LockSharedOvershoots() returns (s: State)
    ensures Reachable(s) && s.WF() && |s.threads| == 2 && s.threads[0].pc.Idle?
    ensures !WithinCacheClock(s, 0)
    ensures !PendingElsewhere(s, s.threads[0].node, 1) && CoveredByThreadClock(s, 0, 1)
    ensures Visible(s, s.threads[0].node, 1) != At(s.latest, 1)
  {
    s := Stage(14);
    StageReachable(14);
    assert s.threads[0].clock[1] == 1 && s.nodes[0].clock[1] == 0;
    assert At(s.latest, 1)[0] == 7;
  }
}
