/**
 A log made from a dirty-line table, and a log as it is processed: both stand for exactly the hardware lines of
 the table's lines.
 */
module LineLogs {
  import opened ClGroup
  import opened LocalTable
  import opened Decode
  import opened Words

  ghost function NonZero(t: seq<bv64>): (r: seq<bv64>)
    ensures |r| <= |t|
  {
    if t == [] then []
    else NonZero(t[..|t| - 1]) + if t[|t| - 1] != 0 then [t[|t| - 1]] else []
  }

  /** The hardware lines of all entries of a log. */
  ghost function LogLines(log: seq<bv64>): seq<nat>
  {
    if log == [] then [] else LogLines(log[..|log| - 1]) + HardwareLines(log[|log| - 1])
  }

  lemma LogLinesStep(log: seq<bv64>, v: bv64)
    ensures LogLines(log + [v]) == LogLines(log) + HardwareLines(v)
  {
    assert (log + [v])[..|log|] == log;
  }

  /** The loop of write_to_log: copy the entries into a log and write their lines back. */
  method WriteEntries(table: array<bv64>) returns (log: seq<bv64>, out: seq<nat>)
    ensures log == NonZero(table[..]) && |log| <= table.Length
    ensures out == LogLines(log)
  {
    log, out := [], [];
    var k := 0;
    while k < table.Length
      invariant k <= table.Length && log == NonZero(table[..k]) && out == LogLines(log)
    {
      assert table[..k + 1][..k] == table[..k];
      var entry := table[k];
      if entry != 0 {
        LogLinesStep(log, entry);
        log := log + [entry];
        var lines := WriteBack(entry);
        out := out + lines;
      }
      k := k + 1;
    }
    assert table[..k] == table[..];
  }

  ghost predicate Drops(log: seq<bv64>)
  {
    log != [] && (Drops(log[..|log| - 1]) || DropsAll(log[|log| - 1]))
  }

  lemma {:induction false} DropsIff(log: seq<bv64>)
    ensures Drops(log) <==> exists v | v in log :: DropsAll(v)
  {
    if log != [] {
      DropsIff(log[..|log| - 1]);
      assert log == log[..|log| - 1] + [log[|log| - 1]];
    }
  }

  lemma {:induction false} DropsOnce(log: seq<bv64>, k: nat)
    requires k <= |log| && Drops(log[..k])
    ensures Drops(log)
    decreases |log| - k
  {
    if k < |log| {
      assert log[..k + 1][..k] == log[..k];
      DropsOnce(log, k + 1);
    } else {
      assert log[..k] == log;
    }
  }

  lemma PrefixStep(log: seq<bv64>, k: nat)
    requires k < |log|
    ensures LogLines(log[..k + 1]) == LogLines(log[..k]) + HardwareLines(log[k])
    ensures Drops(log[..k + 1]) == (Drops(log[..k]) || DropsAll(log[k]))
  {
    assert log[..k + 1][..k] == log[..k];
  }

  /** process_log: `all` says that it ended with wbinvd. */
  method ProcessLog(log: seq<bv64>) returns (all: bool, out: seq<nat>)
    ensures all == Drops(log)
    ensures !all ==> out == LogLines(log)
  {
    out := [];
    var k := 0;
    while k < |log|
      invariant k <= |log| && out == LogLines(log[..k]) && !Drops(log[..k])
    {
      var lines;
      all, lines := Invalidate(log[k]);
      PrefixStep(log, k);
      k := k + 1;
      if all {
        DropsOnce(log, k);
        return true, out;
      }
      out := out + lines;
    }
    all := false;
    assert log[..k] == log;
  }

  // ---- which lines these are ----

  /** The hardware lines of line number l, as the code computes them. */
  ghost function LineSpan(l: bv64): seq<nat> {
    Span(Nat(l << (44 - SHIFT)), Expand())
  }

  /** Address a is a hardware line of line number l. */
  ghost predicate InLine(l: bv64, a: nat) {
    a % 64 == 0 && Nat(l) * LineBytes() <= a < (Nat(l) + 1) * LineBytes()
  }

  lemma LineBound(l: bv64)
    requires Fits(l >> 4)
    ensures l <= 0x1_FFFF_FFFF_FFFF
  {
  }

  lemma LineSpanIs(l: bv64, a: nat)
    requires Fits(l >> 4)
    ensures a in LineSpan(l) <==> InLine(l, a)
  {
    LineBound(l);
    Shifted(l, 44 - SHIFT);
    LineRange(Nat(l << (44 - SHIFT)), Nat(l), a);
  }

  lemma LineRange(start: nat, n: nat, a: nat)
    requires start == LineBytes() * n
    ensures a in Span(start, Expand()) <==> a % 64 == 0 && n * LineBytes() <= a < (n + 1) * LineBytes()
  {
    LineSize();
    Multiple64(n, LineBytes());
    InSpan(start, Expand(), a);
  }

  lemma {:induction false} InMaskLines(index: bv64, ps: seq<bv64>, a: nat)
    ensures a in MaskLines(index, ps) <==> exists p | p in ps :: a in Span(Nat(LineAddr(index, p)), Expand())
  {
    if ps != [] {
      InMaskLines(index, ps[1..], a);
      assert ps == [ps[0]] + ps[1..];
    }
  }

  lemma PositionIsBit(m: bv64, p: bv64)
    requires m <= 0xFFFF
    ensures p in AllPositions(m) <==> p < 16 && Bit(m, p)
  {
    PositionsAreBits(m, 0, p);
    assert 16 <= p < 64 ==> !Bit(m, p);
  }

  lemma LineAddress(l: bv64)
    requires Fits(l >> 4)
    ensures LineAddr(l >> 4, l & 0xF) == l << (44 - SHIFT)
  {
  }

  /** Flushed lines come from bits of the mask. */
  lemma BitFlushed(v: bv64, a: nat) returns (p: bv64)
    requires MaskEntry(v)
    requires a in HardwareLines(v)
    ensures p < 16 && Bit(GetMask16(v), p) && a in Span(Nat(LineAddr(GetIndex(v), p)), Expand())
  {
    var ps := AllPositions(GetMask16(v));
    InMaskLines(GetIndex(v), ps, a);
    p :| p in ps && a in Span(Nat(LineAddr(GetIndex(v), p)), Expand());
    PositionIsBit(GetMask16(v), p);
  }

  lemma BitIsFlushed(v: bv64, p: bv64, a: nat)
    requires MaskEntry(v)
    requires p < 16 && Bit(GetMask16(v), p) && a in Span(Nat(LineAddr(GetIndex(v), p)), Expand())
    ensures a in HardwareLines(v)
  {
    var ps := AllPositions(GetMask16(v));
    InMaskLines(GetIndex(v), ps, a);
    PositionIsBit(GetMask16(v), p);
  }

  lemma LineOfBit(index: bv64, p: bv64) returns (l: bv64)
    requires Fits(index) && p < 16
    ensures index == l >> 4 && p == l & 0xF
  {
    l := (index << 4) | p;
    LineParts(index, p);
  }

  /** A flushed line is a line of the entry. */
  lemma LineFlushed(v: bv64, a: nat) returns (l: bv64)
    requires MaskEntry(v) && a in HardwareLines(v)
    ensures Holds(v, l) && a in LineSpan(l)
  {
    var p := BitFlushed(v, a);
    IndexFits(v);
    l := LineOfBit(GetIndex(v), p);
    LineAddress(l);
  }

  /** A line of the entry is flushed. */
  lemma HeldLineIsFlushed(v: bv64, l: bv64, a: nat)
    requires MaskEntry(v) && Holds(v, l) && a in LineSpan(l)
    ensures a in HardwareLines(v)
  {
    IndexFits(v);
    LineAddress(l);
    BitIsFlushed(v, l & 0xF, a);
  }

  lemma {:induction false} FlushedFrom(log: seq<bv64>, a: nat) returns (v: bv64)
    requires a in LogLines(log)
    ensures v in log && a in HardwareLines(v)
  {
    v := log[|log| - 1];
    if a in LogLines(log[..|log| - 1]) {
      v := FlushedFrom(log[..|log| - 1], a);
    }
  }

  lemma {:induction false} FlushedOf(log: seq<bv64>, v: bv64, a: nat)
    requires v in log && a in HardwareLines(v)
    ensures a in LogLines(log)
  {
    if v != log[|log| - 1] {
      FlushedOf(log[..|log| - 1], v, a);
    }
  }

  lemma {:induction false} InNonZero(t: seq<bv64>, v: bv64)
    ensures v in NonZero(t) <==> v != 0 && v in t
  {
    if t != [] {
      InNonZero(t[..|t| - 1], v);
      assert t == t[..|t| - 1] + [t[|t| - 1]];
    }
  }

  /** What a log made from a table says about line l. */
  ghost predicate LogHolds(log: seq<bv64>, l: bv64)
  {
    exists v | v in log :: Holds(v, l)
  }

  lemma TableLog(t: seq<bv64>, l: bv64)
    ensures LogHolds(NonZero(t), l) <==> Member(t, l)
  {
    if v :| v in NonZero(t) && Holds(v, l) {
      InNonZero(t, v);
      var k: nat :| k < |t| && t[k] == v;
      assert t[k] != 0 && Holds(t[k], l);
    }
    if k: nat :| k < |t| && t[k] != 0 && Holds(t[k], l) {
      InNonZero(t, t[k]);
    }
  }

  ghost predicate MaskLog(log: seq<bv64>)
  {
    forall v | v in log :: MaskEntry(v)
  }

  lemma TableLogIsMaskLog(t: seq<bv64>)
    requires EntriesOk(t)
    ensures MaskLog(NonZero(t))
  {
    forall v | v in NonZero(t) ensures MaskEntry(v) {
      InNonZero(t, v);
      var k: nat :| k < |t| && t[k] == v;
    }
  }

  /** A log made from a table never makes a consumer drop its whole cache. */
  lemma NeverDrops(log: seq<bv64>)
    requires MaskLog(log)
    ensures !Drops(log)
  {
    DropsIff(log);
  }

  lemma FlushedIsHeld(log: seq<bv64>, a: nat) returns (l: bv64)
    requires MaskLog(log) && a in LogLines(log)
    ensures LogHolds(log, l) && a in LineSpan(l)
  {
    var v := FlushedFrom(log, a);
    l := LineFlushed(v, a);
  }

  lemma HeldIsFlushed(log: seq<bv64>, l: bv64, a: nat)
    requires MaskLog(log) && LogHolds(log, l) && a in LineSpan(l)
    ensures a in LogLines(log)
  {
    var v :| v in log && Holds(v, l);
    HeldLineIsFlushed(v, l, a);
    FlushedOf(log, v, a);
  }

  lemma HeldFits(v: bv64, l: bv64)
    requires Holds(v, l)
    ensures Fits(l >> 4)
  {
    IndexFits(v);
  }

  lemma LoggedFits(log: seq<bv64>, l: bv64)
    requires LogHolds(log, l)
    ensures Fits(l >> 4)
  {
    var v :| v in log && Holds(v, l);
    HeldFits(v, l);
  }

  /** A mask entry stands for exactly the hardware lines of the lines it names. */
  lemma MaskEntryLines(v: bv64, a: nat)
    requires MaskEntry(v)
    ensures a in HardwareLines(v) <==> exists l: bv64 :: Holds(v, l) && InLine(l, a)
  {
    if a in HardwareLines(v) {
      var l := LineFlushed(v, a);
      HeldFits(v, l);
      LineSpanIs(l, a);
    }
    if l: bv64 :| Holds(v, l) && InLine(l, a) {
      HeldFits(v, l);
      LineSpanIs(l, a);
      HeldLineIsFlushed(v, l, a);
    }
  }

  /** A log made from a table is flushed line by line, and what is flushed is exactly the hardware lines of the
      lines that it holds. */
  lemma LogLinesExact(log: seq<bv64>, a: nat)
    requires MaskLog(log)
    ensures a in LogLines(log) <==> exists l: bv64 :: LogHolds(log, l) && InLine(l, a)
  {
    if a in LogLines(log) {
      var l := FlushedIsHeld(log, a);
      LoggedFits(log, l);
      LineSpanIs(l, a);
    }
    if l: bv64 :| LogHolds(log, l) && InLine(l, a) {
      LoggedFits(log, l);
      LineSpanIs(l, a);
      HeldIsFlushed(log, l, a);
    }
  }
}
