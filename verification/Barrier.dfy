/**
 CXLBarrier: the counter `arrived` and the round number `phase` are CXLAtomics, so each access also hands
 clocks over, and the values come back through a `char`.  The participants call wait() again and again.
 */
module Barrier {
  import opened Clocks
  import opened Pigeonhole

  /** The conversion of an int to a signed char, as in `char ret = ...; return ret;`. */
  function Char(x: int): (c: int)
    ensures -128 <= c < 128
    decreases if x < 0 then -2 * x else 2 * x + 1
  {
    if x < -128 then Char(x + 256) else if x >= 128 then Char(x - 256) else x
  }

  /** The 32-bit int that phase is. */
  function Wrap32(x: int): (c: int)
    ensures -0x8000_0000 <= c < 0x8000_0000
    decreases if x < 0 then -2 * x else 2 * x + 1
  {
    if x < -0x8000_0000 then Wrap32(x + 0x1_0000_0000)
    else if x >= 0x8000_0000 then Wrap32(x - 0x1_0000_0000)
    else x
  }

  lemma {:induction false} CharIsMod(x: int)
    ensures Char(x) == (x + 128) % 256 - 128
    decreases if x < 0 then -2 * x else 2 * x + 1
  {
    if x < -128 {
      CharIsMod(x + 256);
    } else if x >= 128 {
      CharIsMod(x - 256);
    }
  }

  lemma {:induction false} WrapIsMod(x: int)
    ensures Wrap32(x) == (x + 0x8000_0000) % 0x1_0000_0000 - 0x8000_0000
    decreases if x < 0 then -2 * x else 2 * x + 1
  {
    if x < -0x8000_0000 {
      WrapIsMod(x + 0x1_0000_0000);
    } else if x >= 0x8000_0000 {
      WrapIsMod(x - 0x1_0000_0000);
    }
  }

  lemma CharOfWrapped(x: int)
    ensures Char(Wrap32(x)) == Char(x)
  {
    WrapIsMod(x);
    CharIsMod(x);
    CharIsMod(Wrap32(x));
    var q := (x + 0x8000_0000) / 0x1_0000_0000;
    assert Wrap32(x) == x - q * 0x1_0000_0000;
    ShiftsAway(x + 128, q);
  }

  lemma ShiftsAway(y: int, q: int)
    ensures (y - q * 0x1_0000_0000) % 256 == y % 256
  {
    assert y - q * 0x1_0000_0000 == (y / 256 - q * 0x100_0000) * 256 + y % 256;
  }

  lemma WrappedSum(x: int)
    ensures Wrap32(Wrap32(x) + 1) == Wrap32(x + 1)
  {
    WrapIsMod(x);
    WrapIsMod(x + 1);
    WrapIsMod(Wrap32(x) + 1);
  }

  /** A char still tells one phase from the next, for any number of phases, wrap-around of the int included. */
  lemma CharOfWrap(x: int)
    ensures Char(Wrap32(x)) == Char(x)
    ensures Wrap32(Wrap32(x) + 1) == Wrap32(x + 1)
    ensures Char(x) != Char(x + 1)
  {
    CharOfWrapped(x);
    WrappedSum(x);
    CharIsMod(x);
    CharIsMod(x + 1);
  }

  /** The last arrival recognises itself exactly when the count fits a signed char. */
  lemma LastArrivalIff(count: nat)
    requires count > 0
    ensures Char(count - 1) + 1 == count <==> count <= 128
  {
  }

  datatype Pc =
    | Idle
    | Loaded(phase: int)                       // local_phase read
    | Counted(phase: int, rank: int)           // local_arrived computed
    | Spinning(phase: int)
    | Last                                     // last arrival, before arrived.store(0)
    | Zeroed                                   // before phase.fetch_add

  // round (phases completed), current (who has arrived in this round), done (rounds completed by each) and
  // at (each thread's clocks at its arrivals) are history variables
  datatype State = State(
    nodes: nat, arrived: int, phase: int, arrivedClock: Clock, phaseClock: Clock, clocks: seq<Clock>, pcs: seq<Pc>,
    round: nat, current: set<nat>, done: seq<nat>, at: seq<seq<Clock>>)

  // `c` is the thread clock after thread_release, which only raises it
  datatype Action = LoadPhase | Arrive(c: Clock) | Compare | StoreZero | NextPhase(c: Clock) | Spin | Grow(c: Clock)

  ghost predicate Shape(s: State) {
    && |s.clocks| == |s.pcs| == |s.done| == |s.at|
    && |s.arrivedClock| == s.nodes && |s.phaseClock| == s.nodes
    && forall t: nat | t < |s.clocks| :: |s.clocks[t]| == s.nodes
  }

  ghost predicate Possible(s: State, t: nat, a: Action) {
    && Shape(s) && t < |s.pcs|
    && match a
       case LoadPhase => s.pcs[t].Idle?
       case Arrive(c) => s.pcs[t].Loaded? && Leq(s.clocks[t], c)
       case Compare => s.pcs[t].Counted?
       case StoreZero => s.pcs[t].Last?
       case NextPhase(c) => s.pcs[t].Zeroed? && Leq(s.clocks[t], c)
       case Spin => s.pcs[t].Spinning?
       case Grow(c) => s.pcs[t].Idle? && Leq(s.clocks[t], c)
  }

  function With(s: State, t: nat, pc: Pc, c: Clock): State
    requires t < |s.pcs| && t < |s.clocks|
  {
    s.(pcs := s.pcs[t := pc], clocks := s.clocks[t := c])
  }

  ghost function Apply(s: State, t: nat, a: Action): State
    requires Possible(s, t, a)
  {
    var pc := s.pcs[t];
    var c := s.clocks[t];
    match a
    case LoadPhase => With(s, t, Loaded(Char(s.phase)), Merge(c, s.phaseClock))
    case Arrive(c1) =>
      var ac := Merge(s.arrivedClock, c1);
      With(s, t, Counted(pc.phase, Char(s.arrived) + 1), Merge(c1, ac))
        .(arrived := s.arrived + 1, arrivedClock := ac, current := s.current + {t}, at := s.at[t := s.at[t] + [c1]])
    case Compare => With(s, t, if pc.rank == |s.pcs| then Last else Spinning(pc.phase), c)
    case StoreZero => With(s, t, Zeroed, c).(arrived := 0)
    case NextPhase(c1) =>
      var pk := Merge(s.phaseClock, c1);
      With(s, t, Idle, Merge(c1, pk))
        .(phase := Wrap32(s.phase + 1), phaseClock := pk, round := s.round + 1, current := {},
          done := s.done[t := s.done[t] + 1])
    case Spin =>
      var c1 := Merge(c, s.phaseClock);
      if Char(s.phase) == pc.phase then With(s, t, pc, c1)
      else With(s, t, Idle, c1).(done := s.done[t := s.done[t] + 1])
    case Grow(c1) => With(s, t, pc, c1)
  }

  // ---- the invariant ----

  /** The one thread that ends the round. */
  ghost predicate Leader(s: State, t: nat)
    requires t < |s.pcs|
  {
    (s.pcs[t].Counted? && s.pcs[t].rank == |s.pcs|) || s.pcs[t].Last? || s.pcs[t].Zeroed?
  }

  /** Not yet arrived in the current round; or arrived in it; or arrived in the previous one and not yet left. */
  ghost predicate RoundOk(s: State, t: nat)
    requires Shape(s) && t < |s.pcs|
  {
    && (t in s.current ==>
          |s.at[t]| == s.round + 1 && s.done[t] == s.round
          && match s.pcs[t] {
               case Counted(p, rank) => p == Char(s.round) && 1 <= rank <= |s.current|
               case Spinning(p) => p == Char(s.round)
               case Last => true
               case Zeroed => true
               case _ => false
             })
    && (t !in s.current ==>
          |s.at[t]| == s.round
          && match s.pcs[t] {
               case Idle => s.done[t] == s.round
               case Loaded(p) => s.done[t] == s.round && p == Char(s.round)
               case Counted(p, rank) => s.done[t] + 1 == s.round && p == Char(s.round - 1) && rank != |s.pcs|
               case Spinning(p) => s.done[t] + 1 == s.round && p == Char(s.round - 1)
               case _ => false
             })
  }

  ghost predicate LeaderOk(s: State)
    requires Shape(s)
  {
    && (forall t: nat | t < |s.pcs| && Leader(s, t) :: |s.current| == |s.pcs| && t in s.current)
    && (forall t: nat, u: nat | t < u < |s.pcs| :: !(Leader(s, t) && Leader(s, u)))
    && (|s.current| == |s.pcs| ==> exists t: nat | t < |s.pcs| :: Leader(s, t))
    && (if exists t: nat | t < |s.pcs| :: s.pcs[t].Zeroed? then s.arrived == 0 else s.arrived == |s.current|)
  }

  /** Arrival number k of thread u is known to clock c. */
  ghost predicate Knows(s: State, c: Clock, u: nat, k: nat)
    requires Shape(s) && u < |s.pcs|
  {
    k < |s.at[u]| ==> Leq(s.at[u][k], c)
  }

  ghost predicate ClocksOk(s: State)
    requires Shape(s)
  {
    && (forall u: nat, k: nat | u < |s.pcs| :: Knows(s, s.arrivedClock, u, k))
    && (forall u: nat, k: nat | u < |s.pcs| && k < s.round :: Knows(s, s.phaseClock, u, k))
    && (forall t: nat, u: nat, k: nat | t < |s.pcs| && u < |s.pcs| && k < s.done[t] :: Knows(s, s.clocks[t], u, k))
    && (forall t: nat, u: nat, k: nat | t < |s.pcs| && u < |s.pcs| && Leader(s, t) :: Knows(s, s.clocks[t], u, k))
  }

  ghost predicate Inv(s: State) {
    && Shape(s)
    && 0 < |s.pcs| <= 128
    && s.phase == Wrap32(s.round)
    && s.current <= Below(|s.pcs|)
    && (forall t: nat | t < |s.pcs| :: RoundOk(s, t))
    && LeaderOk(s)
    && ClocksOk(s)
  }

  // ---- every step keeps the invariant ----

  lemma FullIsAll(s: State)
    requires Inv(s)
    ensures |s.current| <= |s.pcs|
    ensures |s.current| == |s.pcs| ==> s.current == Below(|s.pcs|)
  {
    BelowSize(|s.pcs|);
    SubsetSize(s.current, Below(|s.pcs|));
    if |s.current| == |s.pcs| {
      var rest := Below(|s.pcs|) - s.current;
      assert Below(|s.pcs|) == s.current + rest;
      assert |rest| == 0;
    }
  }

  /** A thread that has not arrived finds room, and nobody is ending the round. */
  lemma NotFull(s: State, t: nat)
    requires Inv(s) && t < |s.pcs| && t !in s.current
    ensures |s.current| < |s.pcs| && s.arrived == |s.current|
    ensures forall u: nat | u < |s.pcs| :: !Leader(s, u)
  {
    FullIsAll(s);
    assert forall u: nat | u < |s.pcs| :: !Leader(s, u);
    assert forall u: nat | u < |s.pcs| :: s.pcs[u].Zeroed? ==> Leader(s, u);
  }

  lemma ArriveRounds(s: State, t: nat, c: Clock)
    requires Inv(s) && Possible(s, t, Arrive(c))
    ensures var s' := Apply(s, t, Arrive(c));
            && Shape(s') && |s'.current| == |s.current| + 1 <= |s.pcs| && s'.arrived == |s'.current|
            && s'.pcs[t] == Counted(s.pcs[t].phase, |s'.current|)
            && (forall u: nat | u < |s.pcs| :: RoundOk(s', u))
  {
    assert RoundOk(s, t);
    NotFull(s, t);
    var s' := Apply(s, t, Arrive(c));
    forall u: nat | u < |s.pcs| ensures RoundOk(s', u) {
      assert RoundOk(s, u);
    }
  }

  lemma ArriveLeader(s: State, t: nat, c: Clock)
    requires Inv(s) && Possible(s, t, Arrive(c))
    ensures Shape(Apply(s, t, Arrive(c))) && LeaderOk(Apply(s, t, Arrive(c)))
  {
    var s' := Apply(s, t, Arrive(c));
    assert RoundOk(s, t);
    NotFull(s, t);
    ArriveRounds(s, t, c);
    assert forall u: nat | u < |s.pcs| && u != t :: Leader(s', u) == Leader(s, u);
    assert Leader(s', t) <==> |s'.current| == |s.pcs|;
    assert forall u: nat | u < |s.pcs| && u != t :: s'.pcs[u] == s.pcs[u] && !Leader(s, u);
  }

  /** The leader ends the round: everyone has arrived, and the others have yet to leave. */
  lemma NextRounds(s: State, t: nat, c: Clock)
    requires Inv(s) && Possible(s, t, NextPhase(c))
    ensures var s' := Apply(s, t, NextPhase(c));
            && Shape(s') && s'.phase == Wrap32(s'.round) && s'.current == {}
            && (forall u: nat | u < |s.pcs| :: RoundOk(s', u) && !Leader(s', u))
  {
    var s' := Apply(s, t, NextPhase(c));
    FullIsAll(s);
    CharOfWrap(s.round);
    assert Leader(s, t);
    forall u: nat | u < |s.pcs| ensures RoundOk(s', u) && !Leader(s', u) {
      assert RoundOk(s, u) && u in s.current;
      if u != t {
        assert !Leader(s, u);
      }
    }
  }

  /** What a participant reads of the phase tells whether the round it arrived in is over. */
  lemma PhaseTells(s: State)
    requires Inv(s)
    ensures Char(s.phase) == Char(s.round)
    ensures s.round > 0 ==> Char(s.phase) != Char(s.round - 1)
  {
    CharOfWrap(s.round);
    CharOfWrap(s.round - 1);
  }

  lemma OwnRound(s: State, t: nat, a: Action)
    requires Inv(s) && Possible(s, t, a) && (a.Compare? || a.StoreZero? || a.Grow?)
    ensures Shape(Apply(s, t, a)) && RoundOk(Apply(s, t, a), t)
  {
    assert RoundOk(s, t);
    assert a.StoreZero? || a.Compare? ==> (Leader(s, t) ==> t in s.current);
  }

  lemma LoadRound(s: State, t: nat)
    requires Inv(s) && Possible(s, t, LoadPhase)
    ensures Shape(Apply(s, t, LoadPhase)) && RoundOk(Apply(s, t, LoadPhase), t)
  {
    assert RoundOk(s, t);
    PhaseTells(s);
  }

  lemma SpinRound(s: State, t: nat)
    requires Inv(s) && Possible(s, t, Spin)
    ensures Shape(Apply(s, t, Spin)) && RoundOk(Apply(s, t, Spin), t)
  {
    assert RoundOk(s, t);
    PhaseTells(s);
    assert t in s.current <==> Char(s.phase) == s.pcs[t].phase;
  }

  lemma OtherRounds(s: State, t: nat, a: Action)
    requires Inv(s) && Possible(s, t, a) && !a.Arrive? && !a.NextPhase?
    ensures var s' := Apply(s, t, a); Shape(s') && forall u: nat | u < |s.pcs| :: RoundOk(s', u)
  {
    var s' := Apply(s, t, a);
    if a.LoadPhase? {
      LoadRound(s, t);
    } else if a.Spin? {
      SpinRound(s, t);
    } else {
      OwnRound(s, t, a);
    }
    forall u: nat | u < |s.pcs| ensures RoundOk(s', u) {
      assert RoundOk(s, u);
    }
  }

  lemma SameLeaders(s: State, t: nat, a: Action)
    requires Inv(s) && Possible(s, t, a) && !a.Arrive? && !a.NextPhase?
    ensures var s' := Apply(s, t, a);
            && Shape(s') && s'.current == s.current
            && (forall u: nat | u < |s.pcs| :: Leader(s', u) == Leader(s, u))
            && (forall u: nat | u < |s.pcs| :: s'.pcs[u].Zeroed? <==> s.pcs[u].Zeroed? || (u == t && a.StoreZero?))
  {
    assert RoundOk(s, t);
  }

  lemma OtherLeader(s: State, t: nat, a: Action)
    requires Inv(s) && Possible(s, t, a) && !a.Arrive? && !a.NextPhase?
    ensures Shape(Apply(s, t, a)) && LeaderOk(Apply(s, t, a))
  {
    var s' := Apply(s, t, a);
    SameLeaders(s, t, a);
    forall u: nat, v: nat | u < v < |s.pcs| ensures !(Leader(s', u) && Leader(s', v)) {
      assert !(Leader(s, u) && Leader(s, v));
    }
    if |s.current| == |s.pcs| {
      var u: nat :| u < |s.pcs| && Leader(s, u);
      assert Leader(s', u);
    }
    if a.StoreZero? {
      assert s'.pcs[t].Zeroed?;
    }
  }

  lemma NextLeader(s: State, t: nat, c: Clock)
    requires Inv(s) && Possible(s, t, NextPhase(c))
    ensures Shape(Apply(s, t, NextPhase(c))) && LeaderOk(Apply(s, t, NextPhase(c)))
  {
    var s' := Apply(s, t, NextPhase(c));
    NextRounds(s, t, c);
    assert forall u: nat | u < |s.pcs| :: s'.pcs[u].Zeroed? ==> Leader(s', u);
    assert Leader(s, t);
  }

  lemma KeepsPhase(s: State, t: nat, a: Action)
    requires Possible(s, t, a) && !a.Arrive? && !a.NextPhase?
    ensures var s' := Apply(s, t, a);
            s'.phase == s.phase && s'.round == s.round && s'.current == s.current && |s'.pcs| == |s.pcs|
  {
  }

  lemma StepRounds(s: State, t: nat, a: Action)
    requires Inv(s) && Possible(s, t, a)
    ensures var s' := Apply(s, t, a);
            && Shape(s') && s'.phase == Wrap32(s'.round) && s'.current <= Below(|s'.pcs|)
            && (forall u: nat | u < |s'.pcs| :: RoundOk(s', u)) && LeaderOk(s')
  {
    match a
    case Arrive(c) =>
      ArriveRounds(s, t, c);
      ArriveLeader(s, t, c);
    case NextPhase(c) =>
      NextRounds(s, t, c);
      NextLeader(s, t, c);
    case _ =>
      OtherRounds(s, t, a);
      OtherLeader(s, t, a);
      KeepsPhase(s, t, a);
  }

  // ---- clocks ----

  /** Every clock of the barrier and of its threads only grows. */
  lemma ClocksGrow(s: State, t: nat, a: Action)
    requires Inv(s) && Possible(s, t, a)
    ensures var s' := Apply(s, t, a);
            && Shape(s') && Leq(s.arrivedClock, s'.arrivedClock) && Leq(s.phaseClock, s'.phaseClock)
            && (forall u: nat | u < |s.pcs| :: Leq(s.clocks[u], s'.clocks[u]) && s.at[u] <= s'.at[u])
            && (forall u: nat | u < |s.pcs| ::
                  s'.at[u] == s.at[u] || (a.Arrive? && u == t && s'.at[u] == s.at[u] + [a.c]))
  {
    OwnClockGrows(s, t, a);
    var s' := Apply(s, t, a);
    assert forall u: nat | u < |s.pcs| && u != t :: s'.clocks[u] == s.clocks[u];
  }

  lemma OwnClockGrows(s: State, t: nat, a: Action)
    requires Possible(s, t, a)
    ensures var s' := Apply(s, t, a);
            && Shape(s') && Leq(s.arrivedClock, s'.arrivedClock) && Leq(s.phaseClock, s'.phaseClock)
            && |s'.pcs| == |s.pcs| && Leq(s.clocks[t], s'.clocks[t])
  {
  }

  lemma ArrivedKnows(s: State, t: nat, a: Action, u: nat, k: nat)
    requires Inv(s) && Possible(s, t, a) && u < |s.pcs|
    ensures Shape(Apply(s, t, a)) && Knows(Apply(s, t, a), Apply(s, t, a).arrivedClock, u, k)
  {
    ClocksGrow(s, t, a);
    var s' := Apply(s, t, a);
    assert Knows(s, s.arrivedClock, u, k);
    if k < |s.at[u]| {
      assert s'.at[u][k] == s.at[u][k];
    } else if k < |s'.at[u]| {
      MergeIsJoin(s.arrivedClock, a.c, a.c);
      assert s'.at[u][k] == a.c;
    }
  }

  lemma PhaseKnows(s: State, t: nat, a: Action, u: nat, k: nat)
    requires Inv(s) && Possible(s, t, a) && u < |s.pcs| && k < Apply(s, t, a).round
    ensures Shape(Apply(s, t, a)) && Knows(Apply(s, t, a), Apply(s, t, a).phaseClock, u, k)
  {
    ClocksGrow(s, t, a);
    var s' := Apply(s, t, a);
    assert RoundOk(s, u);
    if k < s.round {
      assert Knows(s, s.phaseClock, u, k);
      assert k < |s.at[u]| && s'.at[u][k] == s.at[u][k];
    } else {
      assert a.NextPhase? && Leader(s, t);
      assert Knows(s, s.clocks[t], u, k);
      MergeIsJoin(s.phaseClock, a.c, a.c);
    }
  }

  /** A thread that leaves a round learns what the phase clock knows; the leader has learned it before. */
  lemma LeaverKnows(s: State, t: nat, a: Action, v: nat, u: nat, k: nat)
    requires Inv(s) && Possible(s, t, a) && v < |s.pcs| && u < |s.pcs|
    requires Shape(Apply(s, t, a)) && k < Apply(s, t, a).done[v]
    ensures Knows(Apply(s, t, a), Apply(s, t, a).clocks[v], u, k)
  {
    ClocksGrow(s, t, a);
    var s' := Apply(s, t, a);
    assert RoundOk(s, u) && RoundOk(s, v);
    assert k < |s.at[u]| ==> s'.at[u][k] == s.at[u][k];
    if k < s.done[v] {
      assert Knows(s, s.clocks[v], u, k);
    } else if a.Spin? {
      PhaseTells(s);
      assert k < s.round && Knows(s, s.phaseClock, u, k);
      MergeIsJoin(s.clocks[t], s.phaseClock, s.phaseClock);
    } else {
      assert a.NextPhase? && Leader(s, t) && Knows(s, s.clocks[t], u, k);
    }
  }

  lemma LeaderKnows(s: State, t: nat, a: Action, v: nat, u: nat, k: nat)
    requires Inv(s) && Possible(s, t, a) && v < |s.pcs| && u < |s.pcs|
    requires Shape(Apply(s, t, a)) && Leader(Apply(s, t, a), v)
    ensures Knows(Apply(s, t, a), Apply(s, t, a).clocks[v], u, k)
  {
    ClocksGrow(s, t, a);
    var s' := Apply(s, t, a);
    assert a.Arrive? && v != t ==> Leader(s, v);
    if a.Arrive? {
      assert RoundOk(s, t);
      NotFull(s, t);
      ArriveRounds(s, t, a.c);
      if v != t {
        assert false;
      }
      ArrivedKnows(s, t, a, u, k);
      MergeIsJoin(a.c, s'.arrivedClock, s'.arrivedClock);
    } else if a.NextPhase? {
      NextRounds(s, t, a.c);
      assert false;
    } else {
      SameLeaders(s, t, a);
      assert Leader(s, v) && Knows(s, s.clocks[v], u, k);
    }
  }

  lemma StepKeepsInv(s: State, t: nat, a: Action)
    requires Inv(s) && Possible(s, t, a)
    ensures Inv(Apply(s, t, a))
  {
    var s' := Apply(s, t, a);
    StepRounds(s, t, a);
    forall u: nat, k: nat | u < |s.pcs| ensures Knows(s', s'.arrivedClock, u, k) {
      ArrivedKnows(s, t, a, u, k);
    }
    forall u: nat, k: nat | u < |s.pcs| && k < s'.round ensures Knows(s', s'.phaseClock, u, k) {
      PhaseKnows(s, t, a, u, k);
    }
    forall v: nat, u: nat, k: nat | v < |s.pcs| && u < |s.pcs| && k < s'.done[v] ensures Knows(s', s'.clocks[v], u, k) {
      LeaverKnows(s, t, a, v, u, k);
    }
    forall v: nat, u: nat, k: nat | v < |s.pcs| && u < |s.pcs| && Leader(s', v) ensures Knows(s', s'.clocks[v], u, k) {
      LeaderKnows(s, t, a, v, u, k);
    }
  }
  // ---- more participants than a signed char can count ----

  /** Everybody is still in the first round, and nobody takes itself for the last to arrive. */
  ghost predicate StuckAt(s: State, t: nat)
    requires Shape(s) && t < |s.pcs|
  {
    && s.done[t] == 0 && |s.at[t]| <= 1
    && match s.pcs[t] {
         case Idle => s.at[t] == []
         case Loaded(p) => p == 0 && s.at[t] == []
         case Counted(p, rank) => p == 0 && rank <= 128
         case Spinning(p) => p == 0
         case _ => false
       }
  }

  ghost predicate Stuck(s: State) {
    && Shape(s) && |s.pcs| > 128 && s.phase == 0
    && forall t: nat | t < |s.pcs| :: StuckAt(s, t)
  }

  lemma StepKeepsStuck(s: State, t: nat, a: Action)
    requires Stuck(s) && Possible(s, t, a)
    ensures Stuck(Apply(s, t, a))
  {
    var s' := Apply(s, t, a);
    assert StuckAt(s, t);
    assert Shape(s') && s'.phase == 0;
    forall u: nat | u < |s.pcs| ensures StuckAt(s', u) {
      assert StuckAt(s, u);
    }
  }
}
