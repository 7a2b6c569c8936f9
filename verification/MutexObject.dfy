/**
 CXLMutex as an object: lock and unlock as they are written, with other threads allowed to take any steps in
 between.  What others may do is the contract of Interfere; its callers know nothing else about it.  `holder`
 stands for the queue lock inside.
 */
module MutexObject {
  import opened Clocks
  import opened CxlMutex

  /** The invariant as a fact that is looked into only through the lemmas below.  The number k means nothing; the
      recursion on it only keeps the definition from unfolding. */
  ghost predicate Good(s: State, k: nat) {
    if k == 0 then Inv(s) else Good(s, k - 1)
  }

  lemma {:induction false} GoodIsInv(s: State, k: nat)
    ensures Good(s, k) == Inv(s)
  {
    if k > 0 {
      GoodIsInv(s, k - 1);
    }
  }

  lemma StepGood(s: State, t: nat, a: Action)
    requires Good(s, |s.pcs|) && Possible(s, t, a)
    ensures var s' := Apply(s, t, a);
            && Good(s', |s'.pcs|) && Shape(s') && |s'.pcs| == |s.pcs|
            && s' == s.(holder := s'.holder, loc := s'.loc, clocks := s'.clocks, pcs := s'.pcs,
                        published := s'.published)
  {
    GoodIsInv(s, |s.pcs|);
    StepKeepsInv(s, t, a);
    GoodIsInv(Apply(s, t, a), |Apply(s, t, a).pcs|);
  }

  /** A step of another thread does what Interfere promises to thread t. */
  lemma OthersInterfere(s: State, t: nat, u: nat, a: Action)
    requires Good(s, |s.pcs|) && Possible(s, u, a) && t < |s.pcs| && u != t
    ensures var s' := Apply(s, u, a);
            && Good(s', |s'.pcs|) && Shape(s') && |s'.pcs| == |s.pcs|
            && s'.pcs[t] == s.pcs[t] && s'.clocks[t] == s.clocks[t] && s.published <= s'.published
  {
    StepGood(s, u, a);
  }

  class CXLMutex {
    const nodes: nat
    var holder: int
    var loc: Clock                      // inner->clock
    var clocks: seq<Clock>              // the thread clocks

    ghost var pcs: seq<Pc>
    ghost var published: seq<Clock>     // what the unlocks so far have published

    ghost function View(): State
      reads this
    {
      State(nodes, holder, loc, clocks, pcs, published)
    }

    ghost predicate Valid()
      reads this
    {
      Good(View(), |pcs|) && Shape(View())
    }

    ghost predicate At(t: nat, pc: Pc)
      reads this
    {
      t < |pcs| && pcs[t] == pc
    }

    constructor (nodes: nat, threads: nat)
      ensures Valid() && |pcs| == threads && published == [] && forall t: nat | t < threads :: pcs[t] == Outside
    {
      this.nodes := nodes;
      holder, loc, clocks := -1, Zero(nodes), seq(threads, _ => Zero(nodes));
      pcs, published := seq(threads, _ => Outside), [];
      new;
      GoodIsInv(View(), |pcs|);
    }

    /** Any number of steps of threads other than t. */
    method Interfere(ghost t: nat)
      requires Valid() && t < |pcs|
      modifies this
      ensures Valid() && |pcs| == |old(pcs)| && pcs[t] == old(pcs[t]) && clocks[t] == old(clocks[t])
      ensures old(published) <= published
    {
    }

    /** The shared fields have just been changed by action a of thread t. */
    ghost method Did(t: nat, a: Action, before: State)
      requires Good(before, |before.pcs|) && Possible(before, t, a)
      requires View() == before.(holder := holder, loc := loc, clocks := clocks)
      requires var s := Apply(before, t, a); holder == s.holder && loc == s.loc && clocks == s.clocks
      modifies this`pcs, this`published
      ensures View() == Apply(before, t, a) && Valid() && |pcs| == |old(pcs)|
    {
      var s := Apply(before, t, a);
      StepGood(before, t, a);
      pcs, published := s.pcs, s.published;
    }

    /** One look at the queue lock. */
    method TryHolder(t: nat) returns (ok: bool)
      requires Valid() && At(t, Outside)
      modifies this
      ensures Valid() && At(t, if ok then Joining(0) else Outside) && published == old(published)
      ensures !ok ==> holder >= 0
    {
      ghost var s := View();
      ok := holder < 0;
      if ok {
        holder := t;
        Did(t, Action.Lock, s);
      }
    }

    /** thread_clock.merge(inner->clock), element j, or the end of that loop. */
    method MergeElement(t: nat, j: nat)
      requires Valid() && At(t, Joining(j))
      modifies this
      ensures Valid() && At(t, if j < nodes then Joining(j + 1) else Inside) && published == old(published)
    {
      ghost var s := View();
      if j < nodes {
        var c: Clock := clocks[t][j := Max(clocks[t][j], loc[j])];
        clocks := clocks[t := c];
      }
      Did(t, JoinElement, s);
    }

    /** inner->clock = thread_clock, element j, or the end of that loop. */
    method CopyElement(t: nat, j: nat)
      requires Valid() && At(t, Storing(j))
      modifies this
      ensures Valid() && At(t, if j < nodes then Storing(j + 1) else Unlocking) && clocks == old(clocks)
      ensures published == if j < nodes then old(published) else old(published) + [clocks[t]]
    {
      ghost var s := View();
      if j < nodes {
        var l: Clock := loc[j := clocks[t][j]];
        loc := l;
      }
      Did(t, StoreElement, s);
    }

    /** thread_release has raised the thread clock to c. */
    method RaiseClock(t: nat, c: Clock)
      requires Valid() && At(t, Inside) && t < |clocks| && Leq(clocks[t], c)
      modifies this
      ensures Valid() && At(t, Inside) && clocks[t] == c && published == old(published)
    {
      ghost var s := View();
      clocks := clocks[t := c];
      Did(t, Grow(c), s);
    }

    method ReleaseHolder(t: nat)
      requires Valid() && At(t, Unlocking)
      modifies this
      ensures Valid() && At(t, Outside) && published == old(published)
    {
      ghost var s := View();
      holder := -1;
      Did(t, Release, s);
    }

    /** Inside the lock: alone, and knowing the clock of every unlock that ever published. */
    ghost predicate Holds(t: nat)
      reads this
    {
      && At(t, Inside) && t < |clocks|
      && (forall p: nat | p < |published| :: Leq(published[p], clocks[t]))
      && (forall u: nat | u < |pcs| && u != t :: pcs[u].Outside?)
    }

    lemma HoldsInside(t: nat)
      requires Valid() && At(t, Inside)
      ensures Holds(t)
    {
      GoodIsInv(View(), |pcs|);
      var s := View();
      assert ThreadOk(s, t);
      forall u: nat | u < |pcs| && u != t ensures pcs[u].Outside? {
        assert ThreadOk(s, u);
      }
    }

    /** lock: whoever comes back locked dominates every publishing unlock before it; patience runs out only while the
        lock is taken. */
    method Lock(t: nat, patience: nat) returns (ok: bool)
      requires Valid() && At(t, Outside)
      modifies this
      ensures Valid() && (if ok then Holds(t) else At(t, Outside)) && old(published) <= published
      ensures !ok && patience > 0 ==> holder >= 0
    {
      ok := false;
      var left := patience;
      while !ok && left > 0
        invariant Valid() && At(t, if ok then Joining(0) else Outside) && old(published) <= published
        invariant !ok && left < patience ==> holder >= 0
        decreases left
      {
        Interfere(t);
        ok := TryHolder(t);
        left := left - 1;
      }
      if ok {
        var j := 0;
        while j < nodes
          invariant j <= nodes && Valid() && At(t, Joining(j)) && old(published) <= published
        {
          Interfere(t);
          MergeElement(t, j);
          j := j + 1;
        }
        Interfere(t);
        MergeElement(t, j);
        HoldsInside(t);
      }
    }

    /** unlock, after a release that raised the thread clock to c: c is published. */
    method UnlockWith(t: nat, c: Clock)
      requires Valid() && At(t, Inside) && t < |clocks| && Leq(clocks[t], c)
      modifies this
      ensures Valid() && At(t, Outside) && old(published) <= published
      ensures exists p: nat | |old(published)| <= p < |published| :: published[p] == c
    {
      RaiseClock(t, c);
      StartUnlock(t);
      var j := 0;
      while j < nodes
        invariant j <= nodes && Valid() && At(t, Storing(j)) && clocks[t] == c && old(published) <= published
      {
        Interfere(t);
        CopyElement(t, j);
        j := j + 1;
      }
      Interfere(t);
      CopyElement(t, j);
      assert published[|published| - 1] == c;
      ghost var done := published;
      Interfere(t);
      assert published[|done| - 1] == c;
      ReleaseHolder(t);
    }

    ghost method StartUnlock(t: nat)
      requires Valid() && At(t, Inside)
      modifies this
      ensures Valid() && At(t, Storing(0)) && clocks == old(clocks) && published == old(published)
    {
      Did(t, Unlock, View());
    }
  }
}
