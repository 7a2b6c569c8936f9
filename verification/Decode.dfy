/**
 What a log entry means in hardware cache lines of 64 bytes: the writeback loops of the producer and the
 invalidation loops of the consumer.  Entries are 64-bit words; the addresses of hardware lines are numbers.
 */
module Decode {
  import opened ClGroup
  import opened Words

  /** CL_EXPAND_FACTOR: the hardware lines of one line. */
  function Expand(): (f: nat)
    ensures 1 <= f <= 32
  {
    if SHIFT == 38 then 1 else if SHIFT == 37 then 2 else if SHIFT == 36 then 4
    else if SHIFT == 35 then 8 else if SHIFT == 34 then 16 else 32
  }

  /** The address of the line at position p of a group: what a MaskCLRange iterator yields for it. */
  function LineAddr(index: bv64, p: bv64): bv64
  {
    (index << (48 - SHIFT)) + (p << (44 - SHIFT))
  }

  /** VIRTUAL_CL_SIZE: the bytes of one line. */
  ghost function LineBytes(): nat {
    Pow2(44 - SHIFT)
  }

  lemma LineSize()
    ensures LineBytes() == 64 * Expand() && Pow2(48 - SHIFT) == 16 * LineBytes()
  {
    Powers();
  }

  /** n consecutive hardware lines from address a on. */
  ghost function Span(a: nat, n: nat): seq<nat> {
    if n == 0 then [] else Span(a, n - 1) + [a + (n - 1) * 64]
  }

  /** They are the aligned addresses of that stretch of memory. */
  lemma {:induction false} InSpan(start: nat, n: nat, a: nat)
    requires start % 64 == 0
    ensures a in Span(start, n) <==> a % 64 == 0 && start <= a < start + n * 64
  {
    if n > 0 {
      InSpan(start, n - 1, a);
    }
  }

  /** The hardware lines of `length` groups of `width` hardware lines each. */
  ghost function GroupSpan(a: nat, length: nat, width: nat): seq<nat> {
    Span(a, length * width)
  }

  ghost function MaskLines(index: bv64, ps: seq<bv64>): seq<nat>
  {
    if ps == [] then []
    else Span(Nat(LineAddr(index, ps[0])), Expand()) + MaskLines(index, ps[1..])
  }

  /** The hardware lines that a log entry stands for, in the order in which they are flushed. */
  ghost function HardwareLines(v: bv64): seq<nat>
  {
    if IsLengthBased(v) then GroupSpan(Nat(GetPtr(v)), Nat(GetLength(v)), 16 * Expand())
    else MaskLines(GetIndex(v), AllPositions(GetMask16(v)))
  }

  // ---- the loops ----

  /** One instruction for each of n hardware lines from address a on. */
  method FlushRun(a: nat, n: nat) returns (out: seq<nat>)
    ensures out == Span(a, n)
  {
    out := [];
    var i := 0;
    while i < n
      invariant i <= n && out == Span(a, i)
    {
      out := out + [a + i * 64];
      i := i + 1;
    }
  }

  lemma {:induction false} NoPositions(p: bv64)
    requires p <= 64
    ensures Positions(0, p) == []
    decreases 64 - p
  {
    if p < 64 {
      NoPositions(p + 1);
    }
  }

  lemma MaskLinesStep(index: bv64, c: bv64, ps: seq<bv64>)
    ensures MaskLines(index, [c] + ps) == Span(Nat(LineAddr(index, c)), Expand()) + MaskLines(index, ps)
  {
    assert ([c] + ps)[1..] == ps;
  }

  ghost function AllPositions(m: bv64): (ps: seq<bv64>)
    ensures m == 0 ==> ps == []
  {
    NoPositions(0);
    Positions(m, 0)
  }

  lemma LowestRemoved(m: bv64, c: bv64)
    requires c < 64 && Bit(m, c) && NoneBelow(m, c)
    ensures AllPositions(m) == [c] + AllPositions(m ^ (1 << c))
  {
    ClearLowest(m, c);
  }

  /** operator* and operator++ of the MaskCLRange iterator: the lowest position, and the mask without it. */
  method TakeLowest(mask: bv64) returns (c: bv64, rest: bv64)
    requires mask != 0
    ensures AllPositions(mask) == [c] + AllPositions(rest) && rest < mask
  {
    c := CountTrailingZeros(mask);
    LowestBit(mask, c);
    rest := mask ^ (mask & -mask);
    LowestRemoved(mask, c);
  }

  lemma Associate(a: seq<nat>, b: seq<nat>, c: seq<nat>)
    ensures (a + b) + c == a + (b + c)
  {
  }

  /** The loop over MaskCLRange around a loop over the hardware lines of a line. */
  method DecodeMask(index: bv64, m: bv64) returns (out: seq<nat>)
    ensures out == MaskLines(index, AllPositions(m))
  {
    var mask := m;
    out := [];
    while mask != 0
      invariant out + MaskLines(index, AllPositions(mask)) == MaskLines(index, AllPositions(m))
      decreases mask
    {
      var c, rest := TakeLowest(mask);
      MaskLinesStep(index, c, AllPositions(rest));
      var run := FlushRun(Nat(LineAddr(index, c)), Expand());
      Associate(out, run, MaskLines(index, AllPositions(rest)));
      out := out + run;
      mask := rest;
    }
  }

  lemma {:induction false} SpanSplits(a: nat, m: nat, n: nat)
    ensures Span(a, m + n) == Span(a, m) + Span(a + m * 64, n)
    decreases n
  {
    if n > 0 {
      SpanSplits(a, m, n - 1);
      Associate(Span(a, m), Span(a + m * 64, n - 1), [a + (m + n - 1) * 64]);
    }
  }

  lemma GroupStart(g: nat, w: nat)
    ensures (g + 1) * w == g * w + w && (g * w) * 64 == g * (w * 64)
  {
  }

  /** The producer on a length entry: a loop over the groups of a LengthCLRange around a loop over the hardware
      lines of a group. */
  method WriteBackGroups(ptr: nat, length: nat, width: nat) returns (out: seq<nat>)
    ensures out == GroupSpan(ptr, length, width)
  {
    var g := 0;
    out := [];
    while g < length
      invariant g <= length && out == Span(ptr, g * width)
    {
      GroupStart(g, width);
      SpanSplits(ptr, g * width, width);
      var run := FlushRun(ptr + g * (width * 64), width);
      out := out + run;
      g := g + 1;
    }
  }

  const WBINVD_THRESHOLD: nat := 0x8_0000

  lemma BelowThreshold(length: nat, width: nat)
    requires length < WBINVD_THRESHOLD && width <= 512
    ensures length * width < 0x1000_0000
  {
    assert length * width <= length * 512;
  }

  /** The consumer on a length entry: one loop with a 32-bit counter, unless the entry is so long that the
      whole cache is dropped (`all`). */
  method InvalidateGroups(ptr: nat, length: nat, width: nat) returns (all: bool, out: seq<nat>)
    requires width <= 512
    ensures all == (length >= WBINVD_THRESHOLD)
    ensures !all ==> out == GroupSpan(ptr, length, width)
  {
    all, out := false, [];
    if length >= WBINVD_THRESHOLD {
      return true, [];
    }
    BelowThreshold(length, width);
    var i := 0;
    while i < length * width
      invariant i <= length * width && out == Span(ptr, i)
    {
      out := out + [ptr + i * 64];
      i := (i + 1) % 0x1_0000_0000;
    }
  }

  lemma LengthBits(v: bv64)
    ensures GetLength(v) < 0x4000_0000
  {
  }

  lemma Untruncated(x: bv64)
    requires x < 0x4000_0000
    ensures x & 0xFFFF_FFFF == x
  {
  }

  /** `unsigned length = get_length(entry)` loses nothing. */
  method Length32(x: bv64) returns (n: nat)
    requires x < 0x4000_0000
    ensures n == Nat(x)
  {
    Untruncated(x);
    n := Nat(x & 0xFFFF_FFFF);
  }

  method WriteBack(v: bv64) returns (out: seq<nat>)
    ensures out == HardwareLines(v)
  {
    if IsLengthBased(v) {
      out := WriteBackGroups(Nat(GetPtr(v)), Nat(GetLength(v)), 16 * Expand());
    } else {
      out := DecodeMask(GetIndex(v), GetMask16(v));
    }
  }

  predicate TooLong(length: bv64) {
    length >= 0x8_0000
  }

  lemma TooLongNat(length: bv64)
    ensures TooLong(length) <==> Nat(length) >= WBINVD_THRESHOLD
  {
  }

  /** A length entry for which the consumer executes wbinvd. */
  predicate DropsAll(v: bv64)
  {
    IsLengthBased(v) && TooLong(GetLength(v))
  }

  method InvalidateLength(ptr: bv64, length: bv64, width: nat) returns (all: bool, out: seq<nat>)
    requires length < 0x4000_0000 && width <= 512
    ensures all == TooLong(length)
    ensures !all ==> out == GroupSpan(Nat(ptr), Nat(length), width)
  {
    var n := Length32(length);
    TooLongNat(length);
    all, out := InvalidateGroups(Nat(ptr), n, width);
  }

  method Invalidate(v: bv64) returns (all: bool, out: seq<nat>)
    ensures all == DropsAll(v)
    ensures !all ==> out == HardwareLines(v)
  {
    if IsLengthBased(v) {
      LengthBits(v);
      all, out := InvalidateLength(GetPtr(v), GetLength(v), 16 * Expand());
    } else {
      all := false;
      out := DecodeMask(GetIndex(v), GetMask16(v));
    }
  }

  // ---- length entries in numbers ----

  lemma IndexBound(v: bv64)
    ensures GetIndex(v) <= 0x1_FFFF_FFFF_FFFF
  {
  }

  lemma Multiple64(n: nat, m: nat)
    requires m % 64 == 0
    ensures (m * n) % 64 == 0
  {
    var q := m / 64;
    assert m * n == (q * n) * 64;
  }

  lemma PtrOfIndex(v: bv64)
    ensures Nat(GetPtr(v)) == Pow2(48 - SHIFT) * Nat(GetIndex(v))
  {
    IndexBound(v);
    Shifted(GetIndex(v), 48 - SHIFT);
  }

  lemma LengthLines(v: bv64)
    requires IsLengthBased(v)
    ensures HardwareLines(v) == GroupSpan(Nat(GetPtr(v)), Nat(GetLength(v)), 16 * Expand())
  {
  }

  /** Address a is a hardware line of one of `length` groups of 16 lines from group `index` on. */
  ghost predicate InGroups(index: nat, length: nat, a: nat) {
    a % 64 == 0 && index * (16 * LineBytes()) <= a < (index + length) * (16 * LineBytes())
  }

  /** What a length entry stands for. */
  lemma LengthEntryLines(v: bv64, a: nat)
    requires IsLengthBased(v)
    ensures a in HardwareLines(v) <==> InGroups(Nat(GetIndex(v)), Nat(GetLength(v)), a)
  {
    PtrOfIndex(v);
    LengthLines(v);
    GroupRange(Nat(GetPtr(v)), Nat(GetIndex(v)), Nat(GetLength(v)), a);
  }

  lemma GroupRange(start: nat, index: nat, length: nat, a: nat)
    requires start == Pow2(48 - SHIFT) * index
    ensures a in GroupSpan(start, length, 16 * Expand()) <==> InGroups(index, length, a)
  {
    LineSize();
    Multiple64(index, 16 * LineBytes());
    InSpan(start, length * (16 * Expand()), a);
    assert length * (16 * Expand()) * 64 == length * (16 * LineBytes());
  }
}
