/**
 The heart of the protocol: a stale copy always has a pending notice.  Memory is stale only while some
 node holds the line dirty, a dirty copy is never stale, and a stale clean copy on node n is announced by
 another node's unpublished table or by a log at or beyond n's head that n has not yet applied to it.
 */
module Coherence {
  import opened Clocks
  import opened Broadcast
  import opened Protocol
  import opened Progress
  import opened Threads
  import opened Waiting

  ghost predicate DirtyAt(s: State, n: nat, l: Line)
    requires n < |s.nodes|
  {
    l in s.nodes[n].cache && s.nodes[n].cache[l].dirty
  }

  ghost predicate SomewhereDirty(s: State, l: Line) {
    exists n: nat | n < |s.nodes| :: DirtyAt(s, n, l)
  }

  /** Some thread of node n has stored to l and not yet written it back. */
  ghost predicate OwnedOn(s: State, n: nat, l: Line) {
    exists t: nat | t < |s.threads| :: s.threads[t].node == n && l in Unwritten(s.threads[t])
  }

  /** The head log is being processed and l is already invalidated. */
  ghost predicate Applied(nd: Node, i: nat, k: nat, l: Line)
    requires i < |nd.heads|
  {
    nd.cons.Busy? && nd.cons.ring == i && nd.cons.phase.Processing? && k == nd.heads[i] && l in nd.cons.phase.done
  }

  ghost predicate NoticeAt(s: State, n: nat, l: Line, i: nat, k: nat)
    requires s.WF() && n < |s.nodes| && i < |s.rings| && k < |s.rings[i]|
  {
    i != n && s.nodes[n].heads[i] <= k && Holds(s.rings[i], k, l) && !Applied(s.nodes[n], i, k, l)
  }

  ghost predicate LogAhead(s: State, n: nat, l: Line)
    requires s.WF() && n < |s.nodes|
  {
    exists i: nat, k: nat | i < |s.rings| && k < |s.rings[i]| :: NoticeAt(s, n, l, i, k)
  }

  ghost predicate Notice(s: State, n: nat, l: Line)
    requires s.WF() && n < |s.nodes|
  {
    PendingElsewhere(s, n, l) || LogAhead(s, n, l)
  }

  ghost predicate CopyOk(s: State, n: nat, l: Line)
    requires s.WF() && n < |s.nodes|
  {
    l in s.nodes[n].cache ==>
      var copy := s.nodes[n].cache[l];
      && (copy.dirty ==> copy.data == At(s.latest, l) && OwnedOn(s, n, l))
      && (copy.data == At(s.latest, l) || Notice(s, n, l))
  }

  ghost predicate LineOk(s: State, l: Line) {
    && s.WF()
    && (At(s.mem, l) == At(s.latest, l) || SomewhereDirty(s, l))
    && (forall n: nat | n < |s.nodes| :: CopyOk(s, n, l))
  }

  /** The inductive invariant of the whole machine. */
  ghost predicate Inv(s: State) {
    && PcsOk(s) && AllTrack(s) && AllGenuine(s) && AllWaited(s)
    && forall l: Line :: LineOk(s, l)
  }

  // ---- frames ----

  ghost predicate SameLine(s: State, s': State, l: Line) {
    && SameShape(s, s')
    && At(s.mem, l) == At(s'.mem, l) && At(s.latest, l) == At(s'.latest, l)
    && (forall n: nat | n < |s.nodes| :: SameCopy(s.nodes[n], s'.nodes[n], l))
  }

  ghost predicate SameCopy(nd: Node, nd': Node, l: Line) {
    (l in nd.cache <==> l in nd'.cache) && (l in nd.cache ==> nd.cache[l] == nd'.cache[l])
  }

  ghost predicate SameOwners(s: State, s': State, l: Line) {
    && |s.threads| == |s'.threads|
    && forall t: nat | t < |s.threads| ::
         && s.threads[t].node == s'.threads[t].node
         && (l in Unwritten(s.threads[t]) ==> l in Unwritten(s'.threads[t]))
  }

  ghost predicate NoticesKept(s: State, s': State, l: Line)
    requires s.WF() && s'.WF()
  {
    |s.nodes| == |s'.nodes| && forall n: nat | n < |s.nodes| :: Notice(s, n, l) ==> Notice(s', n, l)
  }

  lemma OwnersKept(s: State, s': State, n: nat, l: Line)
    requires SameOwners(s, s', l) && OwnedOn(s, n, l)
    ensures OwnedOn(s', n, l)
  {
    var t: nat :| t < |s.threads| && s.threads[t].node == n && l in Unwritten(s.threads[t]);
    assert s'.threads[t].node == n;
  }

  lemma LineFrame(s: State, s': State, l: Line)
    requires LineOk(s, l) && SameLine(s, s', l) && SameOwners(s, s', l) && NoticesKept(s, s', l)
    ensures LineOk(s', l)
  {
    if SomewhereDirty(s, l) {
      var n: nat :| n < |s.nodes| && DirtyAt(s, n, l);
      assert SameCopy(s.nodes[n], s'.nodes[n], l);
      assert DirtyAt(s', n, l);
    }
    forall n: nat | n < |s.nodes| ensures CopyOk(s', n, l) {
      assert CopyOk(s, n, l) && SameCopy(s.nodes[n], s'.nodes[n], l);
      if OwnedOn(s, n, l) {
        OwnersKept(s, s', n, l);
      }
    }
  }

  lemma PendingKept(s: State, s': State, n: nat, l: Line)
    requires PendingElsewhere(s, n, l) && |s.threads| == |s'.threads|
    requires forall t: nat | t < |s.threads| ::
               s.threads[t].node == s'.threads[t].node && (l in Pending(s.threads[t]) ==> l in Pending(s'.threads[t]))
    ensures PendingElsewhere(s', n, l)
  {
    var t :| 0 <= t < |s.threads| && s.threads[t].node != n && l in Pending(s.threads[t]);
    assert s'.threads[t].node != n && l in Pending(s'.threads[t]);
  }

  /** Notices survive when no thread loses a pending line, rings grow, and no head or progress changes. */
  lemma NoticeFrame(s: State, s': State, l: Line)
    requires s.WF() && SameShape(s, s') && RingsGrow(s, s')
    requires forall n: nat | n < |s.nodes| :: SameProgress(s.nodes[n], s'.nodes[n])
    requires forall t: nat | t < |s.threads| ::
               s.threads[t].node == s'.threads[t].node && (l in Pending(s.threads[t]) ==> l in Pending(s'.threads[t]))
    ensures NoticesKept(s, s', l)
  {
    forall n: nat | n < |s.nodes| && Notice(s, n, l) ensures Notice(s', n, l) {
      if PendingElsewhere(s, n, l) {
        PendingKept(s, s', n, l);
      } else {
        LogAheadKept(s, s', n, l);
      }
    }
  }

  lemma LogAheadKept(s: State, s': State, n: nat, l: Line)
    requires s.WF() && SameShape(s, s') && RingsGrow(s, s') && n < |s.nodes|
    requires SameProgress(s.nodes[n], s'.nodes[n]) && LogAhead(s, n, l)
    ensures LogAhead(s', n, l)
  {
    var i: nat, k: nat :| i < |s.rings| && k < |s.rings[i]| && NoticeAt(s, n, l, i, k);
    assert Grows(s.rings[i], s'.rings[i]);
    assert NoticeAt(s', n, l, i, k);
  }

  // ---- steps of the cache ----

  lemma PrefetchLine(s: State, n: nat, l: Line)
    requires LineOk(s, l) && n < |s.nodes| && l !in s.nodes[n].cache
    ensures LineOk(DoPrefetch(s, n, l), l)
  {
    var s' := DoPrefetch(s, n, l);
    NoticeFrame(s, s', l);
    if SomewhereDirty(s, l) {
      var m: nat :| m < |s.nodes| && DirtyAt(s, m, l);
      assert CopyOk(s, m, l) && DirtyAt(s', m, l);
      var t: nat :| t < |s.threads| && s.threads[t].node == m && l in Unwritten(s.threads[t]);
      assert s'.threads[t].node != n && l in Pending(s'.threads[t]);
      assert PendingElsewhere(s', n, l);
    }
    forall m: nat | m < |s.nodes| ensures CopyOk(s', m, l) {
      assert CopyOk(s, m, l);
      if OwnedOn(s, m, l) {
        OwnersKept(s, s', m, l);
      }
    }
  }

  lemma DropLine(s: State, n: nat, l: Line)
    requires LineOk(s, l) && n < |s.nodes|
    ensures LineOk(Drop(s, n, l), l)
  {
    var s' := Drop(s, n, l);
    NoticeFrame(s, s', l);
    assert CopyOk(s, n, l);
    if SomewhereDirty(s, l) && !DirtyAt(s, n, l) {
      var m: nat :| m < |s.nodes| && DirtyAt(s, m, l);
      assert DirtyAt(s', m, l);
    }
    forall m: nat | m < |s.nodes| ensures CopyOk(s', m, l) {
      assert CopyOk(s, m, l);
      if OwnedOn(s, m, l) {
        OwnersKept(s, s', m, l);
      }
    }
  }

  lemma CacheStepLine(s: State, n: nat, c: CacheStep, l: Line)
    requires LineOk(s, l) && n < |s.nodes| && CachePossible(s, n, c)
    ensures LineOk(ApplyCache(s, n, c), l)
  {
    var s' := ApplyCache(s, n, c);
    if c.l == l {
      if c.Prefetch? {
        PrefetchLine(s, n, l);
      } else {
        DropLine(s, n, l);
      }
    } else {
      CacheStepFrame(s, n, c);
      NoticeFrame(s, s', l);
      LineFrame(s, s', l);
    }
  }

  // ---- steps of a thread ----

  /** Under the guard, what an access works on is what was stored last. */
  lemma VisibleIsLatest(s: State, t: nat, l: Line)
    requires AllTrack(s) && AllWaited(s) && LineOk(s, l) && t < |s.threads| && RaceFree(s, t, l)
    requires s.threads[t].pc.Idle? || s.threads[t].pc.Inserting?
    ensures Visible(s, s.threads[t].node, l) == At(s.latest, l)
  {
    var n := s.threads[t].node;
    assert CopyOk(s, n, l);
    if l in s.nodes[n].cache {
      if LogAhead(s, n, l) {
        var i: nat, k: nat :| i < |s.rings| && k < |s.rings[i]| && NoticeAt(s, n, l, i, k);
        SeenIsConsumed(s, t, i);
        assert false;
      }
    } else if SomewhereDirty(s, l) {
      OnlyDirtyHere(s, t, l);
    }
  }

  /** Under the guard, no other node holds the line dirty. */
  lemma OnlyDirtyHere(s: State, t: nat, l: Line)
    requires LineOk(s, l) && t < |s.threads| && RaceFree(s, t, l)
    ensures forall m: nat | m < |s.nodes| && DirtyAt(s, m, l) :: m == s.threads[t].node
  {
    forall m: nat | m < |s.nodes| && DirtyAt(s, m, l) ensures m == s.threads[t].node {
      assert CopyOk(s, m, l);
      var u: nat :| u < |s.threads| && s.threads[u].node == m && l in Unwritten(s.threads[u]);
      assert l in Pending(s.threads[u]);
    }
  }

  lemma StoreLine(s: State, t: nat, l: Line, w: nat, v: int)
    requires AllTrack(s) && AllWaited(s) && PcsOk(s) && LineOk(s, l) && t < |s.threads|
    requires ThreadPossible(s, t, Store(l, w, v)) && RaceFree(s, t, l)
    ensures LineOk(DoStore(s, t, l, w, v), l)
  {
    var s' := DoStore(s, t, l, w, v);
    var n := s.threads[t].node;
    VisibleIsLatest(s, t, l);
    OnlyDirtyHere(s, t, l);
    assert PcOk(s.threads[t], s.rings[n]);
    assert s'.threads[t].node == n && l in Unwritten(s'.threads[t]);
    assert OwnedOn(s', n, l) && DirtyAt(s', n, l);
    forall m: nat | m < |s.nodes| ensures CopyOk(s', m, l) {
      if m != n {
        assert l in s.nodes[m].cache ==> !DirtyAt(s, m, l);
        assert s'.threads[t].node != m && l in Pending(s'.threads[t]);
        assert PendingElsewhere(s', m, l);
      }
    }
  }

  lemma WritebackCopy(s: State, t: nat, l: Line, m: nat)
    requires LineOk(s, l) && t < |s.threads| && ThreadPossible(s, t, Writeback(l)) && m < |s.nodes|
    requires NoticesKept(s, DoWriteback(s, t, l), l)
    ensures CopyOk(DoWriteback(s, t, l), m, l)
  {
    var s' := DoWriteback(s, t, l);
    assert CopyOk(s, m, l);
    if m != s.threads[t].node && OwnedOn(s, m, l) {
      var u: nat :| u < |s.threads| && s.threads[u].node == m && l in Unwritten(s.threads[u]);
      assert s'.threads[u].node == m && l in Unwritten(s'.threads[u]);
    }
  }

  lemma WritebackLine(s: State, t: nat, l: Line)
    requires LineOk(s, l) && t < |s.threads| && ThreadPossible(s, t, Writeback(l))
    ensures LineOk(DoWriteback(s, t, l), l)
  {
    var s' := DoWriteback(s, t, l);
    var n := s.threads[t].node;
    NoticeFrame(s, s', l);
    assert CopyOk(s, n, l);
    if SomewhereDirty(s, l) && !DirtyAt(s, n, l) {
      var m: nat :| m < |s.nodes| && DirtyAt(s, m, l);
      assert DirtyAt(s', m, l);
    }
    forall m: nat | m < |s.nodes| ensures CopyOk(s', m, l) {
      WritebackCopy(s, t, l, m);
    }
  }

  /** At the commit the notice moves from the table of the thread to its log. */
  lemma CommitNotice(s: State, t: nat, l: Line)
    requires AllTrack(s) && s.WF() && Reservation(s, t)
    ensures NoticesKept(s, DoCommit(s, t), l)
  {
    var s' := DoCommit(s, t);
    var i, k := s.threads[t].node, s.threads[t].pc.idx;
    assert ThreadPossible(s, t, Commit) && s' == ApplyThread(s, t, Commit);
    ApplyGrows(s, t, Commit);
    forall n: nat | n < |s.nodes| && Notice(s, n, l) ensures Notice(s', n, l) {
      if PendingElsewhere(s, n, l) {
        var u :| 0 <= u < |s.threads| && s.threads[u].node != n && l in Pending(s.threads[u]);
        if u == t {
          assert NodeTracks(s, n);
          assert Tracks(s.rings[i], i, s.nodes[n].heads[i], s.nodes[n].clock[i], s.nodes[n].cons);
          assert NoticeAt(s', n, l, i, k);
        } else {
          assert s'.threads[u].node != n && l in Pending(s'.threads[u]);
          assert PendingElsewhere(s', n, l);
        }
      } else {
        LogAheadKept(s, s', n, l);
      }
    }
  }

  /** Thread steps that neither touch the cache nor publish. */
  ghost predicate Quiet(a: ThreadStep, l: Line) {
    !a.Commit? && !((a.Load? || a.Store? || a.Writeback?) && a.l == l)
  }

  lemma QuietCopy(s: State, t: nat, a: ThreadStep, l: Line, n: nat)
    requires s.WF() && t < |s.threads| && ThreadPossible(s, t, a) && Quiet(a, l) && n < |s.nodes|
    ensures SameCopy(s.nodes[n], ApplyThread(s, t, a).nodes[n], l)
  {
  }

  lemma QuietLine(s: State, t: nat, a: ThreadStep, l: Line)
    requires s.WF() && t < |s.threads| && ThreadPossible(s, t, a) && Quiet(a, l)
    ensures SameLine(s, ApplyThread(s, t, a), l)
  {
    forall n: nat | n < |s.nodes| ensures SameCopy(s.nodes[n], ApplyThread(s, t, a).nodes[n], l) {
      QuietCopy(s, t, a, l, n);
    }
  }

  lemma QuietThread(s: State, t: nat, a: ThreadStep, l: Line)
    requires PcsOk(s) && t < |s.threads| && ThreadPossible(s, t, a) && Quiet(a, l)
    ensures var th, th' := s.threads[t], ApplyThread(s, t, a).threads[t];
            && (l in Pending(th) ==> l in Pending(th'))
            && (l in Unwritten(th) ==> l in Unwritten(th'))
  {
    assert PcOk(s.threads[t], s.rings[s.threads[t].node]);
  }

  lemma ThreadStepLine(s: State, t: nat, a: ThreadStep, l: Line)
    requires PcsOk(s) && AllTrack(s) && AllWaited(s) && LineOk(s, l)
    requires t < |s.threads| && ThreadPossible(s, t, a) && Guarded(s, ByThread(t, a))
    ensures LineOk(ApplyThread(s, t, a), l)
  {
    var s' := ApplyThread(s, t, a);
    ThreadStepFrame(s, t, a);
    if a.Commit? {
      ThreadStepPc(s, t, a);
      CommitNotice(s, t, l);
      LineFrame(s, s', l);
    } else if (a.Load? || a.Store? || a.Writeback?) && a.l == l {
      match a
      case Load(_, w, v) =>
        if l !in s.nodes[s.threads[t].node].cache {
          PrefetchLine(s, s.threads[t].node, l);
        }
      case Store(_, w, v) => StoreLine(s, t, l, w, v);
      case Writeback(_) => WritebackLine(s, t, l);
    } else {
      QuietLine(s, t, a, l);
      QuietThread(s, t, a, l);
      ApplyGrows(s, t, a);
      NoticeFrame(s, s', l);
      LineFrame(s, s', l);
    }
  }

  // ---- steps of a consumer ----

  /** Taking, consuming, locking and the like never lose a notice. */
  lemma ConsumerNotice(s: State, n: nat, b: ConsumerStep, l: Line)
    requires AllTrack(s) && AllWaited(s) && n < |s.nodes| && ConsumerPossible(s, n, b)
    requires !(b.Invalidate? && b.l == l)
    ensures NoticesKept(s, ApplyConsumer(s, n, b), l)
  {
    var s' := ApplyConsumer(s, n, b);
    ConsumerStepFrame(s, n, b);
    assert HolderOk(s, n);
    forall m: nat | m < |s.nodes| && Notice(s, m, l) ensures Notice(s', m, l) {
      if PendingElsewhere(s, m, l) {
        PendingKept(s, s', m, l);
      } else {
        var i: nat, k: nat :| i < |s.rings| && k < |s.rings[i]| && NoticeAt(s, m, l, i, k);
        assert NoticeAt(s', m, l, i, k);
      }
    }
  }

  lemma InvalidateLine(s: State, n: nat, l: Line)
    requires LineOk(s, l) && n < |s.nodes| && ConsumerPossible(s, n, Invalidate(l))
    ensures LineOk(DoInvalidate(s, n, l), l)
  {
    var s1 := Drop(s, n, l);
    var s' := DoInvalidate(s, n, l);
    DropLine(s, n, l);
    if SomewhereDirty(s1, l) {
      var m: nat :| m < |s1.nodes| && DirtyAt(s1, m, l);
      assert DirtyAt(s', m, l);
    }
    forall m: nat | m < |s.nodes| ensures CopyOk(s', m, l) {
      assert CopyOk(s1, m, l);
      if OwnedOn(s1, m, l) {
        OwnersKept(s1, s', m, l);
      }
      if m != n && Notice(s1, m, l) {
        if PendingElsewhere(s1, m, l) {
          PendingKept(s1, s', m, l);
        } else {
          LogAheadKept(s1, s', m, l);
        }
      }
    }
  }

  lemma ConsumerSameLine(s: State, n: nat, b: ConsumerStep, l: Line)
    requires s.WF() && n < |s.nodes| && ConsumerPossible(s, n, b) && !(b.Invalidate? && b.l == l)
    ensures SameLine(s, ApplyConsumer(s, n, b), l)
  {
  }

  lemma ConsumerSameOwners(s: State, n: nat, b: ConsumerStep, l: Line)
    requires s.WF() && n < |s.nodes| && ConsumerPossible(s, n, b)
    ensures SameOwners(s, ApplyConsumer(s, n, b), l)
  {
    ConsumerStepFrame(s, n, b);
  }

  lemma ConsumerStepLine(s: State, n: nat, b: ConsumerStep, l: Line)
    requires PcsOk(s) && AllTrack(s) && AllWaited(s) && LineOk(s, l) && n < |s.nodes| && ConsumerPossible(s, n, b)
    ensures LineOk(ApplyConsumer(s, n, b), l)
  {
    if b.Invalidate? && b.l == l {
      InvalidateLine(s, n, l);
    } else {
      ConsumerNotice(s, n, b, l);
      ConsumerSameLine(s, n, b, l);
      ConsumerSameOwners(s, n, b, l);
      LineFrame(s, ApplyConsumer(s, n, b), l);
    }
  }

  /** Every guarded step keeps the invariant. */
  lemma StepKeepsInv(s: State, step: Step)
    requires Inv(s) && Possible(s, step) && Guarded(s, step)
    ensures Inv(Apply(s, step))
  {
    StepPcs(s, step);
    StepTracks(s, step);
    StepGenuine(s, step);
    StepWaited(s, step);
    forall l: Line ensures LineOk(Apply(s, step), l) {
      match step
      case ByCache(n, c) => CacheStepLine(s, n, c, l);
      case ByThread(t, a) => ThreadStepLine(s, t, a, l);
      case ByConsumer(n, b) => ConsumerStepLine(s, n, b, l);
    }
  }
}
