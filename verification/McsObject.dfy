/**
 MCSLock as an object: lock, try_lock and unlock as they are written, with other threads allowed to take any
 steps between any two of their own.  What others may do is the contract of Interfere; its callers know nothing
 else about it.
 */
module McsObject {
  import opened McsLock

  /** The invariant, and a step of the machine, as facts that are looked into only through the lemmas below: the
      operations pass many states, and need no more than where their own thread is.  The number k means nothing;
      the recursion on it only keeps the definition from unfolding, as it does in Stepped. */
  ghost predicate Good(s: State, k: nat) {
    if k == 0 then Inv(s) else Good(s, k - 1)
  }

  ghost predicate Stepped(s: State, t: nat, a: Action, s': State, k: nat) {
    if k == 0 then Possible(s, t, a) && s' == Apply(s, t, a) else Stepped(s, t, a, s', k - 1)
  }

  lemma {:induction false} GoodIsInv(s: State, k: nat)
    ensures Good(s, k) == Inv(s)
  {
    if k > 0 {
      GoodIsInv(s, k - 1);
    }
  }

  lemma {:induction false} SteppedIsApply(s: State, t: nat, a: Action, s': State, k: nat)
    ensures Stepped(s, t, a, s', k) == (Possible(s, t, a) && s' == Apply(s, t, a))
  {
    if k > 0 {
      SteppedIsApply(s, t, a, s', k - 1);
    }
  }

  lemma StepGood(s: State, t: nat, a: Action)
    requires Good(s, |s.pcs|) && Possible(s, t, a)
    ensures var s' := Apply(s, t, a); Good(s', |s'.pcs|) && Stepped(s, t, a, s', |s'.pcs|) && |s'.pcs| == |s.pcs|
  {
    GoodIsInv(s, |s.pcs|);
    StepKeepsInv(s, t, a);
    GoodIsInv(Apply(s, t, a), |Apply(s, t, a).pcs|);
    SteppedIsApply(s, t, a, Apply(s, t, a), |Apply(s, t, a).pcs|);
  }

  /** A step of another thread does what Interfere promises to thread t. */
  lemma OthersInterfere(s: State, t: nat, u: nat, a: Action)
    requires Good(s, |s.pcs|) && Possible(s, u, a) && t < |s.pcs| && u != t
    ensures var s' := Apply(s, u, a);
            && Good(s', |s'.pcs|) && |s'.pcs| == |s.pcs|
            && s'.pcs[t] == s.pcs[t]
  {
    StepGood(s, u, a);
  }

  /** The lock was taken at some moment from entry `from` of the history of tail on. */
  ghost predicate TakenSince(tails: seq<Ref>, from: int) {
    exists k: nat | from <= k < |tails| :: tails[k].To?
  }

  class MCSLock {
    var tail: Ref
    var owner: Ref
    var next: map<NodeId, Ref>
    var locked: map<NodeId, bool>

    // where the threads are, and the history
    ghost var live: set<NodeId>
    ghost var pcs: seq<Pc>
    ghost var queue: seq<nat>
    ghost var arrived: seq<nat>
    ghost var departed: seq<nat>
    ghost var tails: seq<Ref>              // what tail has been, step by step; the last one is what it is

    ghost function View(): State
      reads this
    {
      State(tail, owner, next, locked, live, pcs, queue, arrived, departed)
    }

    ghost predicate Valid()
      reads this
    {
      Good(View(), |pcs|) && tails != [] && tails[|tails| - 1] == tail
    }

    /** The last step was action a of thread t. */
    twostate predicate Step(t: nat, a: Action)
      reads this
    {
      Stepped(old(View()), t, a, View(), |pcs|)
    }

    constructor (threads: nat)
      ensures Valid() && |pcs| == threads && forall t: nat | t < threads :: pcs[t] == Out
    {
      tail, owner, next, locked := Null, Null, map[], map[];
      live, pcs, queue, arrived, departed := {}, seq(threads, _ => Out), [], [], [];
      tails := [Null];
      new;
      GoodIsInv(View(), |pcs|);
    }

    /** Any number of steps of threads other than t. */
    method Interfere(ghost t: nat)
      requires Valid() && t < |pcs|
      modifies this
      ensures Valid() && |pcs| == |old(pcs)| && pcs[t] == old(pcs[t]) && old(tails) <= tails
    {
    }

    /** The shared fields have just been changed by action a of thread t. */
    ghost method Did(t: nat, a: Action, before: State)
      requires Good(before, |before.pcs|) && Possible(before, t, a)
      requires View() == before.(tail := tail, owner := owner, next := next, locked := locked)
      requires var s := Apply(before, t, a);
               tail == s.tail && owner == s.owner && next == s.next && locked == s.locked
      modifies this`live, this`pcs, this`queue, this`arrived, this`departed, this`tails
      ensures tails == old(tails) + [tail]
      ensures View() == Apply(before, t, a) && Valid() && Stepped(before, t, a, View(), |pcs|)
    {
      var s := Apply(before, t, a);
      StepGood(before, t, a);
      live, pcs, queue, arrived, departed := s.live, s.pcs, s.queue, s.arrived, s.departed;
      tails := tails + [tail];
    }

    // ---- the atomic actions of lock, try_lock and unlock ----

    /** alloc.allocate(1) returns node n */
    ghost method Allocate(t: nat, n: NodeId)
      requires Valid() && t < |pcs| && pcs[t] == Out && n !in live
      modifies this
      ensures Valid() && |pcs| == |old(pcs)| && old(tails) <= tails && Step(t, BeginLock(n))
      ensures pcs[t] == Made(n)
    {
      ghost var s := View();
      Did(t, BeginLock(n), s);
    }

    ghost method AllocateForTry(t: nat, n: NodeId)
      requires Valid() && t < |pcs| && pcs[t] == Out && n !in live && tail == Null
      modifies this
      ensures Valid() && |pcs| == |old(pcs)| && old(tails) <= tails && Step(t, BeginTry(n))
      ensures pcs[t] == TryMade(n)
    {
      ghost var s := View();
      Did(t, BeginTry(n), s);
    }

    /** node->next.store(nullptr) */
    method StoreNextNull(ghost t: nat, n: NodeId)
      requires Valid() && t < |pcs| && (pcs[t] == Made(n) || pcs[t] == TryMade(n))
      modifies this
      ensures Valid() && |pcs| == |old(pcs)| && old(tails) <= tails && Step(t, ClearNext)
      ensures pcs[t] == if old(pcs[t]).Made? then Cleared(n) else TryCleared(n)
    {
      ghost var s := View();
      next := next[n := Null];
      Did(t, ClearNext, s);
    }

    /** node->locked.store(true) */
    method StoreLocked(ghost t: nat, n: NodeId)
      requires Valid() && t < |pcs| && (pcs[t] == Cleared(n) || pcs[t] == TryCleared(n))
      modifies this
      ensures Valid() && |pcs| == |old(pcs)| && old(tails) <= tails && Step(t, SetLocked)
      ensures pcs[t] == if old(pcs[t]).Cleared? then Ready(n) else TryReady(n)
    {
      ghost var s := View();
      locked := locked[n := true];
      Did(t, SetLocked, s);
    }

    /** tail.exchange(node) */
    method ExchangeTail(ghost t: nat, n: NodeId) returns (pred: Ref)
      requires Valid() && t < |pcs| && pcs[t] == Ready(n)
      modifies this
      ensures Valid() && |pcs| == |old(pcs)| && old(tails) <= tails && Step(t, Exchange)
      ensures pred == old(tail) && pcs[t] == if pred.To? then Linking(n, pred.n) else Entering(n)
    {
      ghost var s := View();
      pred := tail;
      tail := To(n);
      Did(t, Exchange, s);
    }

    /** predecessor->next.store(node) */
    method StoreLink(ghost t: nat, n: NodeId, pred: NodeId)
      requires Valid() && t < |pcs| && pcs[t] == Linking(n, pred)
      modifies this
      ensures Valid() && |pcs| == |old(pcs)| && old(tails) <= tails && Step(t, Link)
      ensures pcs[t] == Spinning(n)
    {
      ghost var s := View();
      next := next[pred := To(n)];
      Did(t, Link, s);
    }

    /** node->locked.load() */
    method LoadLocked(ghost t: nat, n: NodeId) returns (spin: bool)
      requires Valid() && t < |pcs| && pcs[t] == Spinning(n)
      modifies this
      ensures Valid() && |pcs| == |old(pcs)| && old(tails) <= tails && Step(t, Spin)
      ensures pcs[t] == (if spin then Spinning(n) else Entering(n)) && (spin ==> n in locked && locked[n])
    {
      ghost var s := View();
      spin := n in locked && locked[n];
      Did(t, Spin, s);
    }

    /** owner = node */
    method StoreOwner(ghost t: nat, n: NodeId)
      requires Valid() && t < |pcs| && pcs[t] == Entering(n)
      modifies this
      ensures Valid() && |pcs| == |old(pcs)| && old(tails) <= tails && Step(t, SetOwner)
      ensures pcs[t] == Inside(n) && owner == To(n)
    {
      ghost var s := View();
      owner := To(n);
      Did(t, SetOwner, s);
    }

    /** tail.compare_exchange_strong(nullptr, node) */
    method CompareExchangeTail(ghost t: nat, n: NodeId) returns (won: bool)
      requires Valid() && t < |pcs| && pcs[t] == TryReady(n)
      modifies this
      ensures Valid() && |pcs| == |old(pcs)| && old(tails) <= tails && Step(t, TryExchange)
      ensures pcs[t] == (if won then Entering(n) else Dropping(n)) && (!won ==> tail.To?)
    {
      ghost var s := View();
      won := tail.Null?;
      if won {
        tail := To(n);
      }
      Did(t, TryExchange, s);
    }

    /** node = owner */
    method LoadOwner(ghost t: nat, ghost n: NodeId) returns (node: NodeId)
      requires Valid() && t < |pcs| && pcs[t] == Inside(n) && owner == To(n)
      modifies this
      ensures Valid() && |pcs| == |old(pcs)| && old(tails) <= tails && Step(t, BeginUnlock)
      ensures node == n && pcs[t] == Leaving(n)
    {
      ghost var s := View();
      node := owner.n;
      Did(t, BeginUnlock, s);
    }

    /** node->next.load() */
    method LoadNextOnce(ghost t: nat, n: NodeId) returns (succ: Ref)
      requires Valid() && t < |pcs| && pcs[t] == Leaving(n)
      modifies this
      ensures Valid() && |pcs| == |old(pcs)| && old(tails) <= tails && Step(t, LoadNext)
      ensures pcs[t] == if succ.Null? then SawNull(n) else Passing(n, succ.n)
    {
      ghost var s := View();
      succ := if n in next then next[n] else Null;
      Did(t, LoadNext, s);
    }

    /** tail.compare_exchange_strong(node, nullptr) */
    method ResetTail(ghost t: nat, n: NodeId) returns (won: bool)
      requires Valid() && t < |pcs| && pcs[t] == SawNull(n)
      modifies this
      ensures Valid() && |pcs| == |old(pcs)| && old(tails) <= tails && Step(t, CasTail)
      ensures pcs[t] == (if won then Dropping(n) else Waiting(n)) && (won ==> departed == old(departed) + [t])
    {
      ghost var s := View();
      won := tail == To(n);
      if won {
        tail := Null;
      }
      Did(t, CasTail, s);
    }

    method LoadNextAgain(ghost t: nat, n: NodeId) returns (succ: Ref)
      requires Valid() && t < |pcs| && pcs[t] == Waiting(n)
      modifies this
      ensures Valid() && |pcs| == |old(pcs)| && old(tails) <= tails && Step(t, SpinNext)
      ensures pcs[t] == if succ.Null? then Waiting(n) else Passing(n, succ.n)
      ensures succ == if n in next then next[n] else Null
    {
      ghost var s := View();
      succ := if n in next then next[n] else Null;
      Did(t, SpinNext, s);
    }

    /** next->locked.store(false) */
    method ClearLocked(ghost t: nat, n: NodeId, succ: NodeId)
      requires Valid() && t < |pcs| && pcs[t] == Passing(n, succ)
      modifies this
      ensures Valid() && |pcs| == |old(pcs)| && old(tails) <= tails && Step(t, Pass)
      ensures pcs[t] == Dropping(n) && departed == old(departed) + [t]
    {
      ghost var s := View();
      locked := locked[succ := false];
      Did(t, Pass, s);
    }

    /** alloc.deallocate(node, 1) */
    ghost method Free(t: nat, n: NodeId)
      requires Valid() && t < |pcs| && pcs[t] == Dropping(n)
      modifies this
      ensures Valid() && |pcs| == |old(pcs)| && old(tails) <= tails && Step(t, Deallocate)
      ensures pcs[t] == Out && n !in live
    {
      ghost var s := View();
      Did(t, Deallocate, s);
    }

    // ---- the operations ----

    /** while (node->locked), at most `patience` times */
    method SpinUntilGranted(ghost t: nat, n: NodeId, patience: nat) returns (granted: bool)
      requires Valid() && t < |pcs| && pcs[t] == Spinning(n)
      modifies this
      ensures Valid() && t < |pcs| && pcs[t] == if granted then Entering(n) else Spinning(n)
      ensures !granted && patience > 0 ==> n in locked && locked[n]
    {
      var left := patience;
      while left > 0
        invariant Valid() && t < |pcs| && pcs[t] == Spinning(n)
        invariant left < patience ==> n in locked && locked[n]
      {
        Interfere(t);
        var spin := LoadLocked(t, n);
        if !spin {
          return true;
        }
        left := left - 1;
      }
      return false;
    }

    /** Sole holder of the lock, with owner naming its node. */
    ghost predicate Holds(t: nat, n: NodeId)
      reads this
    {
      && t < |pcs| && pcs[t] == Inside(n) && owner == To(n) && queue != [] && queue[0] == t
      && forall u: nat | u < |pcs| && u != t :: !pcs[u].Entering? && !Holding(pcs[u])
    }

    ghost method Granted(t: nat, n: NodeId)
      requires Valid() && t < |pcs| && pcs[t] == Inside(n) && owner == To(n)
      ensures Holds(t, n)
    {
      GoodIsInv(View(), |pcs|);
      GrantedIsHead(View(), t);
      forall u: nat | u < |pcs| && u != t ensures !pcs[u].Entering? && !Holding(pcs[u]) {
        if pcs[u].Entering? || Holding(pcs[u]) {
          GrantedIsHead(View(), u);
        }
      }
    }

    /** lock: whoever comes back granted holds the lock alone, whatever the others did meanwhile. */
    method Lock(ghost t: nat, n: NodeId, patience: nat) returns (granted: bool)
      requires Valid() && t < |pcs| && pcs[t] == Out && n !in live
      modifies this
      ensures Valid() && t < |pcs| && if granted then Holds(t, n) else pcs[t] == Spinning(n)
      ensures !granted && patience > 0 ==> n in locked && locked[n]
    {
      Allocate(t, n);
      Interfere(t);
      StoreNextNull(t, n);
      Interfere(t);
      StoreLocked(t, n);
      Interfere(t);
      var predecessor := ExchangeTail(t, n);
      granted := true;
      if predecessor.To? {
        Interfere(t);
        StoreLink(t, n, predecessor.n);
        granted := SpinUntilGranted(t, n, patience);
      }
      if granted {
        Interfere(t);
        StoreOwner(t, n);
        Granted(t, n);
      }
    }

    /** try_lock: true makes the caller the only holder; false leaves it outside with its node freed, and is answered
        only if the lock was taken at some moment of the call. */
    method TryLock(ghost t: nat, n: NodeId) returns (ok: bool)
      requires Valid() && t < |pcs| && pcs[t] == Out && n !in live
      modifies this
      ensures Valid() && t < |pcs| && if ok then Holds(t, n) else pcs[t] == Out
      ensures old(tails) <= tails && (!ok ==> TakenSince(tails, |old(tails)| - 1))
    {
      if tail.To? {
        return false;
      }
      AllocateForTry(t, n);
      Interfere(t);
      StoreNextNull(t, n);
      Interfere(t);
      StoreLocked(t, n);
      Interfere(t);
      ok := FinishTry(t, n);
    }

    method FinishTry(ghost t: nat, n: NodeId) returns (ok: bool)
      requires Valid() && t < |pcs| && pcs[t] == TryReady(n)
      modifies this
      ensures Valid() && t < |pcs| && if ok then Holds(t, n) else pcs[t] == Out
      ensures old(tails) <= tails && (!ok ==> TakenSince(tails, |old(tails)| - 1))
    {
      ok := CompareExchangeTail(t, n);
      ghost var seen := tails;
      Interfere(t);
      if ok {
        StoreOwner(t, n);
        Granted(t, n);
      } else {
        assert tails[|seen| - 1] == seen[|seen| - 1];
        Free(t, n);
      }
    }

    /** unlock: the lock passes to the next in line, or becomes free; then the node is freed.  Only the wait for
        the link of the successor can run out of patience. */
    method Unlock(ghost t: nat, ghost n: NodeId, patience: nat) returns (done: bool)
      requires Valid() && Holds(t, n)
      modifies this
      ensures Valid() && t < |pcs|
      ensures if done then pcs[t] == Out && n !in live else pcs[t] == Waiting(n)
      ensures !done && patience > 0 ==> n !in next || next[n].Null?
    {
      var node := LoadOwner(t, n);
      Interfere(t);
      var succ := LoadNextOnce(t, node);
      if succ.Null? {
        Interfere(t);
        var won := ResetTail(t, node);
        if won {
          Interfere(t);
          Free(t, node);
          return true;
        }
        var left := patience;
        while succ.Null? && left > 0
          invariant Valid() && t < |pcs|
          invariant pcs[t] == if succ.Null? then Waiting(node) else Passing(node, succ.n)
          invariant succ.Null? && left < patience ==> node !in next || next[node].Null?
          decreases left
        {
          Interfere(t);
          succ := LoadNextAgain(t, node);
          left := left - 1;
        }
        if succ.Null? {
          return false;
        }
      }
      Interfere(t);
      ClearLocked(t, node, succ.n);
      Interfere(t);
      Free(t, node);
      return true;
    }
  }
}
