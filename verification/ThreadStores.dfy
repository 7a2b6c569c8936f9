/**
 The thread side of the protocol on the real table: log_store with its one-line cache, write_to_log and
 thread_release.  No store is lost between the table and the logs of the node.
 */
module ThreadStores {
  import opened Broadcast
  import opened ClGroup
  import opened LocalTable
  import opened Decode
  import opened LineLogs

  const LOG_SIZE: nat := 64

  /** One of the logs from index `from` on names line l. */
  ghost predicate LoggedFrom(logs: seq<Log<seq<bv64>>>, from: nat, l: bv64) {
    exists k: nat | from <= k < |logs| :: LogHolds(logs[k].items, l)
  }

  lemma LoggedMore(logs: seq<Log<seq<bv64>>>, more: seq<Log<seq<bv64>>>, from: nat, l: bv64)
    requires LoggedFrom(logs, from, l)
    ensures LoggedFrom(logs + more, from, l)
  {
    var k: nat :| from <= k < |logs| && LogHolds(logs[k].items, l);
    assert (logs + more)[k] == logs[k];
  }

  lemma LoggedLast(logs: seq<Log<seq<bv64>>>, log: Log<seq<bv64>>, from: nat, l: bv64)
    requires LogHolds(log.items, l) && from <= |logs|
    ensures LoggedFrom(logs + [log], from, l)
  {
    assert (logs + [log])[|logs|] == log;
  }

  /** Lines that log_store can record: not line 0, which recent_cl takes for "nothing stored", and of an address
      of at most 48 bits, which a packed entry can hold. */
  predicate Loggable(l: bv64) {
    l != 0 && Fits(l >> 4)
  }

  // What a thread does to the shared memory, in this order: clwb of a hardware line, and produce_tail.
  datatype Effect = WrittenBack(a: nat) | Produced(log: Log<seq<bv64>>)

  function WriteBacks(flushed: seq<nat>): (e: seq<Effect>)
    ensures |e| == |flushed| && forall k: nat | k < |e| :: e[k] == WrittenBack(flushed[k])
  {
    seq(|flushed|, k requires 0 <= k < |flushed| => WrittenBack(flushed[k]))
  }

  /** What was done between `before` and `after`: first every hardware line of every line of the log was written
      back, and then the log was published. */
  ghost predicate PublishedSafely(before: seq<Effect>, after: seq<Effect>, log: Log<seq<bv64>>) {
    && |before| < |after| && before <= after && after[|after| - 1] == Produced(log)
    && (forall k: nat | |before| <= k < |after| - 1 :: after[k].WrittenBack?)
    && forall l: bv64, a: nat | LogHolds(log.items, l) && InLine(l, a) ::
         WrittenBack(a) in after[|before|..|after| - 1]
  }

  /** At most one log was published, safely, and nothing else was done. */
  ghost predicate OneAtMost(logs: seq<Log<seq<bv64>>>, logs': seq<Log<seq<bv64>>>,
                            before: seq<Effect>, after: seq<Effect>) {
    || (logs' == logs && after == before)
    || (|logs'| == |logs| + 1 && logs <= logs' && PublishedSafely(before, after, logs'[|logs|]))
  }

  lemma SafelyPublished(before: seq<Effect>, flushed: seq<nat>, log: Log<seq<bv64>>)
    requires MaskLog(log.items) && flushed == LogLines(log.items)
    ensures PublishedSafely(before, before + WriteBacks(flushed) + [Produced(log)], log)
  {
    var after := before + WriteBacks(flushed) + [Produced(log)];
    assert after[|before|..|after| - 1] == WriteBacks(flushed);
    forall l: bv64, a: nat | LogHolds(log.items, l) && InLine(l, a) ensures WrittenBack(a) in WriteBacks(flushed) {
      LogLinesExact(log.items, a);
      var k: nat :| k < |flushed| && flushed[k] == a;
      assert WriteBacks(flushed)[k] == WrittenBack(a);
    }
  }

  class ThreadOps {
    const dirty: LocalCLTable
    var recent: bv64                     // recent_cl
    var logs: seq<Log<seq<bv64>>>        // what this node has published, by all its threads
    var clock: nat                       // own component of thread_clock
    var effects: seq<Effect>             // what this thread has done so far

    ghost var stored: set<bv64>          // lines stored since the last release
    ghost var base: nat                  // how much was published at the last release

    /** The logs and the table together know every line stored since the last release. */
    ghost predicate Recorded(l: bv64)
      reads `logs, `base, dirty`lines
    {
      l in dirty.lines || LoggedFrom(logs, base, l)
    }

    ghost predicate Valid()
      reads this, dirty, dirty.table
    {
      && dirty.Valid() && dirty.table.Length <= LOG_SIZE
      && base <= |logs| && clock <= |logs|
      && (Loggable(recent) ==> recent in dirty.lines)
      && (if recent == 0 then stored == {} || 0 in stored else recent in stored)
      && dirty.lines <= stored
      && forall l | l in stored && Loggable(l) :: Recorded(l)
    }

    constructor (iters: nat, size: nat)
      requires iters > 0 && 0 < size <= LOG_SIZE
      ensures Valid() && fresh(dirty) && fresh(dirty.table)
      ensures stored == {} && logs == [] && effects == []
    {
      dirty := new LocalCLTable(iters, size);
      recent, logs, clock, effects, stored, base := 0, [], 0, [], {}, 0;
    }

    /** Other threads of the node publish logs. */
    method OthersPublish(more: seq<Log<seq<bv64>>>)
      requires Valid()
      modifies this`logs
      ensures Valid() && logs == old(logs) + more
    {
      logs := logs + more;
      forall l | l in stored && Loggable(l) ensures Recorded(l) {
        if l !in dirty.lines {
          LoggedMore(old(logs), more, base, l);
        }
      }
    }

    /** write_to_log: the dirty lines are written back and published as one log, and the table is cleared. */
    method WriteToLog(rel: bool) returns (clk: nat)
      requires dirty.Valid() && dirty.table.Length <= LOG_SIZE && base <= |logs|
      requires forall l | l in stored && Loggable(l) :: Recorded(l)
      modifies this`logs, this`effects, dirty, dirty.table
      ensures dirty.Valid() && dirty.lines == {}
      ensures clk == |old(logs)| + 1 == |logs| && old(logs) <= logs
      ensures logs[clk - 1].rel == rel && |logs[clk - 1].items| <= LOG_SIZE
      ensures MaskLog(logs[clk - 1].items) && logs[..clk - 1] == old(logs)
      ensures PublishedSafely(old(effects), effects, logs[clk - 1])
      ensures forall l: bv64 :: LogHolds(logs[clk - 1].items, l) <==> l in old(dirty.lines)
      ensures forall l | l in stored && Loggable(l) :: LoggedFrom(logs, base, l)
    {
      var items, flushed := WriteEntries(dirty.table);
      effects := effects + WriteBacks(flushed);
      TableLogIsMaskLog(dirty.table[..]);
      forall l: bv64 ensures LogHolds(items, l) <==> l in dirty.lines {
        TableLog(dirty.table[..], l);
      }
      ghost var before := logs;
      logs, effects := logs + [Log(items, rel)], effects + [Produced(Log(items, rel))];
      clk := |logs|;
      SafelyPublished(old(effects), flushed, Log(items, rel));
      forall l | l in stored && Loggable(l) ensures LoggedFrom(logs, base, l) {
        RecordedOn(before, Log(items, rel), base, dirty.lines, l);
      }
      dirty.ClearTable();
    }

    /** The overflow branch of log_store. */
    method PublishAndInsert(cl: bv64)
      requires dirty.Valid() && dirty.table.Length <= LOG_SIZE && base <= |logs|
      requires forall l | l in stored && Loggable(l) :: Recorded(l)
      modifies this`logs, this`effects, dirty, dirty.table
      ensures dirty.Valid() && dirty.lines == if Fits(cl >> 4) then {cl} else {}
      ensures old(logs) <= logs && |logs| == |old(logs)| + 1
      ensures PublishedSafely(old(effects), effects, logs[|logs| - 1])
      ensures forall l | l in stored && Loggable(l) :: LoggedFrom(logs, base, l)
    {
      var clk := WriteToLog(false);
      SecondTry(cl);
      var full := dirty.Insert(cl);
    }

    method Record(cl: bv64)
      requires dirty.Valid() && dirty.table.Length <= LOG_SIZE && base <= |logs|
      requires forall l | l in stored && Loggable(l) :: Recorded(l)
      modifies this`logs, this`effects, dirty, dirty.table
      ensures dirty.Valid() && (Fits(cl >> 4) ==> cl in dirty.lines) && dirty.lines <= old(dirty.lines) + {cl}
      ensures OneAtMost(old(logs), logs, old(effects), effects)
      ensures forall l | l in stored && Loggable(l) :: Recorded(l)
    {
      var full := dirty.Insert(cl);
      if full {
        PublishAndInsert(cl);
      }
    }

    /** log_store: the line of addr is recorded, in the table or by the fast path, and no line that can be recorded
        is lost. */
    method LogStore(addr: bv64)
      requires Valid()
      modifies this`recent, this`logs, this`effects, this`stored, dirty, dirty.table
      ensures Valid() && recent == addr >> (44 - SHIFT) && stored == old(stored) + {addr >> (44 - SHIFT)}
      ensures OneAtMost(old(logs), logs, old(effects), effects)
      ensures forall l | l in stored && l != 0 :: Recorded(l) <==> Fits(l >> 4)
    {
      var cl := addr >> (44 - SHIFT);
      if cl != recent {
        recent := cl;
        Record(cl);
      }
      AddStored(cl);
      RecordedIff();
    }

    /** The line joins the lines stored, whichever way it was recorded. */
    ghost method AddStored(cl: bv64)
      requires dirty.Valid() && dirty.table.Length <= LOG_SIZE && base <= |logs| && clock <= |logs|
      requires recent == cl && (Loggable(cl) ==> cl in dirty.lines) && dirty.lines <= stored + {cl}
      requires forall l | l in stored && Loggable(l) :: Recorded(l)
      modifies this`stored
      ensures Valid() && stored == old(stored) + {cl}
    {
      stored := stored + {cl};
    }

    lemma RecordedIff()
      requires Valid()
      ensures forall l | l in stored && l != 0 :: Recorded(l) <==> Fits(l >> 4)
    {
      forall l | l in stored && l != 0 && Recorded(l) ensures Fits(l >> 4) {
        RecordedFits(l);
      }
    }

    lemma RecordedFits(l: bv64)
      requires dirty.Valid() && Recorded(l)
      ensures Fits(l >> 4)
    {
      if l in dirty.lines {
        var k: nat :| k < dirty.table.Length && dirty.table[k] != 0 && Holds(dirty.table[k], l);
        HeldFits(dirty.table[k], l);
      } else {
        var k: nat :| base <= k < |logs| && LogHolds(logs[k].items, l);
        var v :| v in logs[k].items && Holds(v, l);
        HeldFits(v, l);
      }
    }

    /** Right after the table was cleared, exactly the lines of 48-bit addresses can be inserted. */
    lemma SecondTry(cl: bv64)
      requires dirty.Valid() && dirty.lines == {}
      ensures Rejects(dirty.iters, dirty.table[..], cl >> 4) == !Fits(cl >> 4)
    {
      EmptyAccepts(dirty.iters, dirty.table[..], cl >> 4);
    }

    /** thread_release publishes unless the last store was to line 0 or there was none; then every recordable line
        stored since the last release that published is in a log of this node whose index is at most the new own
        clock component.  Otherwise it does nothing. */
    method ThreadRelease() returns (released: bool)
      requires Valid()
      modifies this, dirty, dirty.table
      ensures Valid() && released == (old(recent) != 0)
      ensures 0 !in old(stored) ==> released == (old(stored) != {})
      ensures released ==>
                && old(clock) < clock == |logs| == |old(logs)| + 1 && old(logs) <= logs && logs[clock - 1].rel
                && PublishedSafely(old(effects), effects, logs[clock - 1])
                && stored == {} && forall l | l in old(stored) && Loggable(l) :: LoggedFrom(logs, old(base), l)
      ensures !released ==> logs == old(logs) && clock == old(clock) && stored == old(stored) && effects == old(effects)
    {
      if recent == 0 {
        return false;
      }
      recent := 0;
      var clk := WriteToLog(true);
      clock := clk;
      stored, base := {}, |logs|;
      return true;
    }
  }

  /** Publishing the table keeps every stored line recorded. */
  lemma RecordedOn(before: seq<Log<seq<bv64>>>, log: Log<seq<bv64>>, base: nat, lines: set<bv64>, l: bv64)
    requires base <= |before|
    requires l in lines || LoggedFrom(before, base, l)
    requires l in lines ==> LogHolds(log.items, l)
    ensures LoggedFrom(before + [log], base, l)
  {
    if l in lines {
      LoggedLast(before, log, base, l);
    } else {
      LoggedMore(before, [log], base, l);
    }
  }
}
