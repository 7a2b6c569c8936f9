/**
 CacheLineTracker for lines of 64 bytes: two levels of lazily created tables over 64-bit leaves.  A missing key
 of a map stands for a null pointer.  Addresses are numbers, and shifts and masks on them divisions and
 remainders; leaves are 64-bit words.  The tracker looks at bits 6 to 38 of an address only, so addresses
 that are a multiple of 2^39 apart share a bit.
 */
module Tracker {
  import opened ClGroup
  import opened Decode
  import opened Words
  import opened Pigeonhole

  const LEAVES: nat := 0x800_0000       // 2^27
  const LEAF_BYTES: nat := 4096
  const WINDOW: nat := 0x80_0000_0000   // 2^39

  type Tables = map<nat, map<nat, bv64>>

  // ---- positions in a leaf, as words and as numbers ----

  lemma NatBound(p: bv64)
    requires p < 64
    ensures Nat(p) < 64
  {
  }

  lemma NatBoundIff(p: bv64)
    requires p < 64 && Nat(p) < 32
    ensures p < 32
  {
  }

  lemma NatDoubled(p: bv64)
    requires p < 32
    ensures p << 1 < 64 && Nat(p << 1) == 2 * Nat(p)
    ensures (p << 1) | 1 < 64 && Nat((p << 1) | 1) == 2 * Nat(p) + 1
  {
  }

  lemma NatOrder(p: bv64, q: bv64)
    requires p < 64 && q < 64
    ensures p <= q ==> Nat(p) <= Nat(q)
    ensures p < q ==> Nat(p) < Nat(q)
  {
  }

  /** The word for a position. */
  function Pos(n: nat): (p: bv64)
    requires n < 64
    ensures p < 64 && Nat(p) == n
  {
    if n == 0 then 0
    else
      var h := Pos(n / 2);
      NatBoundIff(h);
      NatDoubled(h);
      if n % 2 == 1 then (h << 1) | 1 else h << 1
  }

  /** A bit of the tracker: its leaf (27 address bits) and its position there (6 address bits). */
  datatype BitNo = BitNo(leaf: nat, pos: bv64)

  function Id(a: nat): BitNo {
    BitNo(a / 4096 % LEAVES, Pos(a / 64 % 64))
  }

  lemma LeafAndPosition(q: nat)
    ensures q % (64 * LEAVES) == q / 64 % LEAVES * 64 + q % 64
  {
    var top := q / 64 / LEAVES;
    assert q == top * (64 * LEAVES) + (q / 64 % LEAVES * 64 + q % 64);
  }

  lemma LineNumbers(a: nat, b: nat)
    ensures a / 64 % (64 * LEAVES) == b / 64 % (64 * LEAVES) <==>
            a / 4096 % LEAVES == b / 4096 % LEAVES && a / 64 % 64 == b / 64 % 64
  {
    LeafAndPosition(a / 64);
    LeafAndPosition(b / 64);
    assert a / 64 / 64 == a / 4096 && b / 64 / 64 == b / 4096;
  }

  /** Two addresses share a bit exactly if their lines are a multiple of 2^33 lines apart. */
  lemma IdIff(a: nat, b: nat)
    ensures Id(a) == Id(b) <==> a / 64 % (64 * LEAVES) == b / 64 % (64 * LEAVES)
  {
    LineNumbers(a, b);
    SamePosition(a / 64 % 64, b / 64 % 64);
  }

  lemma SamePosition(m: nat, n: nat)
    requires m < 64 && n < 64
    ensures Pos(m) == Pos(n) <==> m == n
  {
    var p, q := Pos(m), Pos(n);
    assert p == q ==> Nat(p) == Nat(q);
  }

  // ---- the two-level table ----

  function Get(t: Tables, i: nat, j: nat): bv64 {
    if i in t && j in t[i] then t[i][j] else 0
  }

  /** The tables with mask m stored under the indices i and j. */
  function Put(t: Tables, i: nat, j: nat, m: bv64): Tables {
    var l2 := if i in t then t[i] else map[];
    t[i := l2[j := m]]
  }

  ghost function Leaf(t: Tables, g: nat): bv64 {
    Get(t, g / 256, g % 256)
  }

  ghost predicate IsSet(t: Tables, b: BitNo) {
    b.pos < 64 && Bit(Leaf(t, b.leaf), b.pos)
  }

  /** The bits of leaf g become those of m; the others stay. */
  ghost predicate Becomes(t: Tables, t': Tables, g: nat, m: bv64) {
    && (forall p: bv64 | p < 64 :: IsSet(t', BitNo(g, p)) == Bit(m, p))
    && (forall b: BitNo | b.leaf != g :: IsSet(t', b) == IsSet(t, b))
  }

  lemma PutGet(t: Tables, i: nat, j: nat, m: bv64, i': nat, j': nat)
    ensures Get(Put(t, i, j, m), i', j') == if i == i' && j == j' then m else Get(t, i', j')
  {
  }

  lemma Stored(t: Tables, g: nat, m: bv64)
    ensures Becomes(t, Put(t, g / 256, g % 256, m), g, m)
  {
    PutGet(t, g / 256, g % 256, m, g / 256, g % 256);
    var t' := Put(t, g / 256, g % 256, m);
    forall b: BitNo | b.leaf != g ensures IsSet(t', b) == IsSet(t, b) {
      PutGet(t, g / 256, g % 256, m, b.leaf / 256, b.leaf % 256);
    }
  }

  ghost predicate SetIs(t: Tables, dirty: set<BitNo>) {
    && (forall b: BitNo :: b in dirty <==> IsSet(t, b))
    && (forall b | b in dirty :: b.leaf < LEAVES)
  }

  /** Leaf g changes by a function on its bits, and so does the set. */
  lemma LeafSet(t: Tables, t': Tables, dirty: set<BitNo>, dirty': set<BitNo>, g: nat, m: bv64)
    requires SetIs(t, dirty) && Becomes(t, t', g, m) && g < LEAVES
    requires forall b: BitNo | b.leaf != g || b.pos >= 64 :: b in dirty' <==> b in dirty
    requires forall p: bv64 | p < 64 :: BitNo(g, p) in dirty' <==> Bit(m, p)
    ensures SetIs(t', dirty')
  {
    forall b: BitNo ensures b in dirty' <==> IsSet(t', b) {
      if b.leaf == g && b.pos < 64 {
        assert b == BitNo(g, b.pos);
      }
    }
  }

  // ---- words of a leaf ----

  lemma SetBit(m: bv64, p: bv64, q: bv64)
    requires p < 64 && q < 64
    ensures Bit(m | (1 << p), q) == (Bit(m, q) || p == q)
  {
  }

  lemma ClearBit(m: bv64, p: bv64, q: bv64)
    requires p < 64 && q < 64
    ensures Bit(m & !(1 << p), q) == (Bit(m, q) && p != q)
  {
  }

  lemma TestBit(m: bv64, p: bv64)
    requires p < 64
    ensures m & (1 << p) != 0 <==> Bit(m, p)
  {
  }

  ghost predicate Adds(l: bv64, p: bv64, m: bv64) {
    forall q: bv64 | q < 64 :: Bit(m, q) == (Bit(l, q) || p == q)
  }

  ghost predicate Removes(l: bv64, p: bv64, m: bv64) {
    forall q: bv64 | q < 64 :: Bit(m, q) == (Bit(l, q) && p != q)
  }

  lemma SetBits(l: bv64, p: bv64)
    requires p < 64
    ensures Adds(l, p, l | (1 << p))
  {
    forall q: bv64 | q < 64 ensures Bit(l | (1 << p), q) == (Bit(l, q) || p == q) {
      SetBit(l, p, q);
    }
  }

  lemma ClearBits(l: bv64, p: bv64)
    requires p < 64
    ensures Removes(l, p, l & !(1 << p))
  {
    forall q: bv64 | q < 64 ensures Bit(l & !(1 << p), q) == (Bit(l, q) && p != q) {
      ClearBit(l, p, q);
    }
  }

  lemma Marked(t: Tables, dirty: set<BitNo>, g: nat, p: bv64, m: bv64, t': Tables)
    requires SetIs(t, dirty) && g < LEAVES && p < 64 && Adds(Leaf(t, g), p, m) && Becomes(t, t', g, m)
    ensures SetIs(t', dirty + {BitNo(g, p)})
  {
    forall q: bv64 | q < 64 ensures BitNo(g, q) in dirty + {BitNo(g, p)} <==> Bit(m, q) {
      assert BitNo(g, q) in dirty <==> IsSet(t, BitNo(g, q));
    }
    LeafSet(t, t', dirty, dirty + {BitNo(g, p)}, g, m);
  }

  lemma Cleared(t: Tables, dirty: set<BitNo>, g: nat, p: bv64, m: bv64, t': Tables)
    requires SetIs(t, dirty) && g < LEAVES && p < 64 && Removes(Leaf(t, g), p, m) && Becomes(t, t', g, m)
    ensures SetIs(t', dirty - {BitNo(g, p)})
  {
    forall q: bv64 | q < 64 ensures BitNo(g, q) in dirty - {BitNo(g, p)} <==> Bit(m, q) {
      assert BitNo(g, q) in dirty <==> IsSet(t, BitNo(g, q));
    }
    LeafSet(t, t', dirty, dirty - {BitNo(g, p)}, g, m);
  }

  lemma SplitL1(va: nat)
    ensures va / 0x10_0000 == va / 4096 / 256
  {
  }

  lemma SplitLeaf(q: nat)
    ensures q / 256 % 0x8_0000 == q % LEAVES / 256
    ensures q % 256 == q % LEAVES % 256
  {
    var top := q / LEAVES;
    assert q == top * LEAVES + q % LEAVES;
  }

  /** The three indices of an address. */
  lemma SplitParts(va: nat)
    ensures va / 0x10_0000 % 0x8_0000 == (va / 4096 % LEAVES) / 256
    ensures va / 4096 % 256 == (va / 4096 % LEAVES) % 256
  {
    SplitL1(va);
    SplitLeaf(va / 4096);
  }

  method SplitVa(va: nat) returns (i: nat, j: nat, line: bv64, ghost g: nat)
    ensures g < LEAVES && i == g / 256 && j == g % 256 && Id(va) == BitNo(g, line) && line < 64
  {
    SplitParts(va);
    g := va / 4096 % LEAVES;
    i, j, line := va / 0x10_0000 % 0x8_0000, va / 4096 % 256, Pos(va / 64 % 64);
  }

  lemma PopBit(m: bv64, c: bv64)
    requires c < 64 && Bit(m, c) && NoneBelow(m, c)
    ensures m & (m - 1) == m ^ (1 << c)
    ensures m & (m - 1) < m
  {
  }

  /** The lowest set bit, and the word without it. */
  method PopLowest(bits: bv64) returns (c: bv64, rest: bv64)
    requires bits != 0
    ensures c < 64 && AllPositions(bits) == [c] + AllPositions(rest) && rest < bits
  {
    c := CountTrailingZeros(bits);
    PopBit(bits, c);
    LowestRemoved(bits, c);
    rest := bits & (bits - 1);
  }

  /** The addresses of lines in the leaf at address `base`. */
  ghost function LeafLines(base: nat, ps: seq<bv64>): seq<nat> {
    if ps == [] then [] else [base + Nat(ps[0]) * 64] + LeafLines(base, ps[1..])
  }

  lemma NextLine(out: seq<nat>, base: nat, p: bv64, ps: seq<bv64>)
    ensures out + LeafLines(base, [p] + ps) == out + [base + Nat(p) * 64] + LeafLines(base, ps)
  {
    assert ([p] + ps)[1..] == ps;
  }

  method FlushLeaf(base: nat, m: bv64) returns (out: seq<nat>)
    ensures out == LeafLines(base, AllPositions(m))
  {
    var bits := m;
    out := [];
    while bits != 0
      invariant out + LeafLines(base, AllPositions(bits)) == LeafLines(base, AllPositions(m))
      decreases bits
    {
      var bit, rest := PopLowest(bits);
      NextLine(out, base, bit, AllPositions(rest));
      out := out + [base + Nat(bit) * 64];
      bits := rest;
    }
  }

  lemma NatInjective(p: bv64, q: bv64)
    requires p < 64 && q < 64 && Nat(p) == Nat(q)
    ensures p == q
  {
    NatOrder(p, q);
    NatOrder(q, p);
    assert p < q || q < p || p == q;
  }

  lemma {:induction false} LineInLeaf(base: nat, ps: seq<bv64>, p: bv64)
    requires p in ps
    ensures base + Nat(p) * 64 in LeafLines(base, ps)
  {
    if ps[0] != p {
      LineInLeaf(base, ps[1..], p);
    }
  }

  lemma {:induction false} LeafOfLine(base: nat, ps: seq<bv64>, a: nat) returns (k: nat)
    requires a in LeafLines(base, ps)
    ensures k < |ps| && a == base + Nat(ps[k]) * 64
  {
    k := 0;
    if a != base + Nat(ps[0]) * 64 {
      k := LeafOfLine(base, ps[1..], a);
      k := k + 1;
    }
  }

  lemma FirstIsNew(base: nat, ps: seq<bv64>)
    requires ps != [] && Distinct(ps) && forall i: nat | i < |ps| :: ps[i] < 64
    ensures base + Nat(ps[0]) * 64 !in LeafLines(base, ps[1..])
  {
    var a := base + Nat(ps[0]) * 64;
    if a in LeafLines(base, ps[1..]) {
      var k := LeafOfLine(base, ps[1..], a);
      NatInjective(ps[0], ps[k + 1]);
    }
  }

  lemma {:induction false} LeafLinesDistinct(base: nat, ps: seq<bv64>)
    requires Distinct(ps) && forall i: nat | i < |ps| :: ps[i] < 64
    ensures Distinct(LeafLines(base, ps))
  {
    if ps != [] {
      FirstIsNew(base, ps);
      LeafLinesDistinct(base, ps[1..]);
      PrependDistinct(base + Nat(ps[0]) * 64, LeafLines(base, ps[1..]));
    }
  }

  lemma FlushedOnce(base: nat, m: bv64)
    ensures Distinct(LeafLines(base, AllPositions(m)))
  {
    var ps := AllPositions(m);
    forall i: nat | i < |ps| ensures ps[i] < 64 {
      PositionsAreBits(m, 0, ps[i]);
    }
    PositionsDistinct(m, 0);
    LeafLinesDistinct(base, AllPositions(m));
  }

  lemma FlushedHasBit(base: nat, m: bv64, a: nat) returns (p: bv64)
    requires a in LeafLines(base, AllPositions(m))
    ensures p < 64 && Bit(m, p) && a == base + Nat(p) * 64
  {
    var k := LeafOfLine(base, AllPositions(m), a);
    p := AllPositions(m)[k];
    PositionsAreBits(m, 0, p);
  }

  lemma BitFlushes(base: nat, m: bv64, p: bv64)
    requires p < 64 && Bit(m, p)
    ensures base + Nat(p) * 64 in LeafLines(base, AllPositions(m))
  {
    PositionsAreBits(m, 0, p);
    LineInLeaf(base, AllPositions(m), p);
  }

  /** Address a is line p of the leaf at `base`. */
  ghost predicate IsLine(base: nat, a: nat, p: bv64) {
    p < 64 && a == base + Nat(p) * 64
  }

  /** What FlushLeaf flushes: the lines whose bit is set. */
  lemma FlushedLines(base: nat, m: bv64, a: nat, p: bv64)
    requires IsLine(base, a, p)
    ensures a in LeafLines(base, AllPositions(m)) <==> Bit(m, p)
  {
    if a in LeafLines(base, AllPositions(m)) {
      var q := FlushedHasBit(base, m, a);
      NatInjective(p, q);
    }
    if Bit(m, p) {
      BitFlushes(base, m, p);
    }
  }

  // ---- the mask of a range of lines ----

  /** m has exactly the positions from number x up to, not including, number y. */
  ghost predicate Masks(m: bv64, x: nat, y: nat) {
    forall p: bv64 {:trigger Bit(m, p)} | p < 64 :: Bit(m, p) == (x <= Nat(p) < y)
  }

  lemma BitUnder(e: bv64, p: bv64)
    requires e < 64 && p < e
    ensures Bit((1 << e) - 1, p)
  {
  }

  lemma NoBitOver(e: bv64, p: bv64)
    requires e < 64 && e <= p < 64
    ensures !Bit((1 << e) - 1, p)
  {
  }

  lemma MaskUnder(e: bv64)
    requires e < 64
    ensures Masks((1 << e) - 1, 0, Nat(e))
  {
    forall p: bv64 | p < 64 ensures Bit((1 << e) - 1, p) == (Nat(p) < Nat(e)) {
      NatOrder(p, e);
      NatOrder(e, p);
      if p < e {
        BitUnder(e, p);
      } else {
        NoBitOver(e, p);
      }
    }
  }

  lemma TailBit(s: bv64, p: bv64)
    requires s < 64 && p < 64
    ensures Bit(0xFFFF_FFFF_FFFF_FFFF << s, p) == (s <= p)
  {
  }

  lemma MaskFrom(s: bv64)
    requires s < 64
    ensures Masks(0xFFFF_FFFF_FFFF_FFFF << s, Nat(s), 64)
  {
    forall p: bv64 | p < 64 ensures Bit(0xFFFF_FFFF_FFFF_FFFF << s, p) == (Nat(s) <= Nat(p) < 64) {
      TailBit(s, p);
      NatOrder(p, s);
      NatOrder(s, p);
      NatBound(p);
    }
  }

  lemma WithoutBit(m: bv64, n: bv64, p: bv64)
    requires p < 64
    ensures Bit(m & !n, p) == (Bit(m, p) && !Bit(n, p))
  {
  }

  lemma CommonBit(m: bv64, n: bv64, p: bv64)
    requires p < 64
    ensures Bit(m & n, p) == (Bit(m, p) && Bit(n, p))
  {
  }

  lemma MaskBetween(hi: bv64, lo: bv64, x: nat, y: nat)
    requires Masks(hi, 0, y) && Masks(lo, 0, x)
    ensures Masks(hi & !lo, x, y)
  {
    forall p: bv64 | p < 64 ensures Bit(hi & !lo, p) == (x <= Nat(p) < y) {
      WithoutBit(hi, lo, p);
    }
  }

  /** The mask of lines from `start` up to `end`, where 64 stands for the end of the leaf. */
  method RangeMask(start: bv64, whole: bool, end: bv64) returns (m: bv64)
    requires start < 64 && end < 64
    ensures Masks(m, Nat(start), if whole then 64 else Nat(end))
  {
    if whole {
      MaskFrom(start);
      m := 0xFFFF_FFFF_FFFF_FFFF << start;
    } else {
      MaskUnder(end);
      MaskUnder(start);
      MaskBetween((1 << end) - 1, (1 << start) - 1, Nat(start), Nat(end));
      m := ((1 << end) - 1) & !((1 << start) - 1);
    }
  }

  // ---- one leaf of a range ----

  lemma LeafBase(a: nat)
    ensures a % 4096 == a / 64 % 64 * 64 + a % 64
    ensures (a / 4096 + 1) * 4096 == a - a % 4096 + 4096
    ensures (a - a % 4096) % 4096 == 0
  {
  }

  lemma SameBase(addr: nat, end: nat)
    requires addr < end < (addr / 4096 + 1) * 4096
    ensures end - end % 4096 == addr - addr % 4096
  {
  }

  lemma PageEnd(addr: nat, end: nat)
    requires (addr / 4096 + 1) * 4096 <= end
    ensures addr - addr % 4096 + 4096 <= end - end % 64
  {
  }

  /** The computed line numbers bound exactly the lines from addr up to the last whole line before end. */
  lemma RangeLine(addr: nat, end: nat, n: nat)
    requires addr % 64 == 0 && addr < end && n < 64
    ensures var last := if (addr / 4096 + 1) * 4096 > end then end / 64 % 64 else 64;
            addr / 64 % 64 <= n < last <==> addr <= addr - addr % 4096 + n * 64 < end - end % 64
  {
    LeafBase(addr);
    LeafBase(end);
    if (addr / 4096 + 1) * 4096 > end {
      SameBase(addr, end);
    } else {
      PageEnd(addr, end);
    }
  }

  /** Line p of the leaf of addr is in the range that remains. */
  ghost predicate InRest(addr: nat, end: nat, p: bv64) {
    addr <= addr - addr % 4096 + Nat(p) * 64 < end - end % 64
  }

  lemma RangeMaskIs(addr: nat, end: nat, m: bv64)
    requires addr % 64 == 0 && addr < end
    requires Masks(m, addr / 64 % 64, if (addr / 4096 + 1) * 4096 > end then end / 64 % 64 else 64)
    ensures forall p: bv64 | p < 64 :: Bit(m, p) == InRest(addr, end, p)
  {
    forall p: bv64 | p < 64 ensures Bit(m, p) == InRest(addr, end, p) {
      NatBound(p);
      RangeLine(addr, end, Nat(p));
    }
  }

  ghost predicate AllLines(base: nat, out: seq<nat>) {
    forall a | a in out :: base <= a < base + 4096 && (a - base) % 64 == 0
  }

  /** The dirty lines of leaf g in the rest of the range, and no others of the leaf, are flushed. */
  ghost predicate RestFlushed(before: set<BitNo>, out: seq<nat>, g: nat, addr: nat, end: nat) {
    forall p: bv64 | p < 64 ::
      addr - addr % 4096 + Nat(p) * 64 in out <==> BitNo(g, p) in before && InRest(addr, end, p)
  }

  ghost function Without(before: set<BitNo>, g: nat, addr: nat, end: nat): set<BitNo> {
    set b | b in before && !(b.leaf == g && InRest(addr, end, b.pos))
  }

  /** What one leaf contributes to a range invalidation. */
  ghost predicate LeafFlushed(before: set<BitNo>, after: set<BitNo>, out: seq<nat>, addr: nat, end: nat) {
    var g, base := addr / 4096 % LEAVES, addr - addr % 4096;
    && Distinct(out) && AllLines(base, out)
    && RestFlushed(before, out, g, addr, end)
    && after == Without(before, g, addr, end)
  }

  lemma FlushedAreLines(base: nat, m: bv64)
    ensures Distinct(LeafLines(base, AllPositions(m))) && AllLines(base, LeafLines(base, AllPositions(m)))
  {
    FlushedOnce(base, m);
    forall a | a in LeafLines(base, AllPositions(m)) ensures base <= a < base + 4096 && (a - base) % 64 == 0 {
      var p := FlushedHasBit(base, m, a);
      NatBound(p);
    }
  }

  ghost predicate RestMask(addr: nat, end: nat, m: bv64) {
    forall p: bv64 | p < 64 :: Bit(m, p) == InRest(addr, end, p)
  }

  lemma WithoutLine(t: Tables, before: set<BitNo>, g: nat, addr: nat, end: nat, m: bv64, n: bv64, p: bv64)
    requires SetIs(t, before) && RestMask(addr, end, m) && Subtracts(Leaf(t, g), m, n) && p < 64
    ensures BitNo(g, p) in Without(before, g, addr, end) <==> Bit(n, p)
  {
    assert BitNo(g, p) in before <==> IsSet(t, BitNo(g, p));
  }

  lemma WithoutElsewhere(t: Tables, before: set<BitNo>, g: nat, addr: nat, end: nat, b: BitNo)
    requires SetIs(t, before) && (b.leaf != g || b.pos >= 64)
    ensures b in Without(before, g, addr, end) <==> b in before
  {
    assert b in before <==> IsSet(t, b);
  }

  lemma WithoutRest(t: Tables, before: set<BitNo>, g: nat, addr: nat, end: nat, m: bv64, n: bv64)
    requires SetIs(t, before) && RestMask(addr, end, m) && g < LEAVES && Subtracts(Leaf(t, g), m, n)
    ensures SetIs(Put(t, g / 256, g % 256, n), Without(before, g, addr, end))
  {
    var after := Without(before, g, addr, end);
    forall p: bv64 | p < 64 ensures BitNo(g, p) in after <==> Bit(n, p) {
      WithoutLine(t, before, g, addr, end, m, n, p);
    }
    forall b: BitNo | b.leaf != g || b.pos >= 64 ensures b in after <==> b in before {
      WithoutElsewhere(t, before, g, addr, end, b);
    }
    Stored(t, g, n);
    LeafSet(t, Put(t, g / 256, g % 256, n), before, after, g, n);
  }

  lemma RestIsFlushed(t: Tables, before: set<BitNo>, g: nat, addr: nat, end: nat, m: bv64, n: bv64)
    requires SetIs(t, before) && RestMask(addr, end, m) && Intersects(Leaf(t, g), m, n)
    ensures RestFlushed(before, LeafLines(addr - addr % 4096, AllPositions(n)), g, addr, end)
  {
    var base := addr - addr % 4096;
    forall p: bv64 | p < 64
      ensures base + Nat(p) * 64 in LeafLines(base, AllPositions(n)) <==> BitNo(g, p) in before && InRest(addr, end, p)
    {
      FlushedLines(base, n, base + Nat(p) * 64, p);
      assert BitNo(g, p) in before <==> IsSet(t, BitNo(g, p));
    }
  }

  ghost predicate Intersects(l: bv64, m: bv64, n: bv64) {
    forall p: bv64 | p < 64 :: Bit(n, p) == (Bit(l, p) && Bit(m, p))
  }

  ghost predicate Subtracts(l: bv64, m: bv64, n: bv64) {
    forall p: bv64 | p < 64 :: Bit(n, p) == (Bit(l, p) && !Bit(m, p))
  }

  lemma WordOps(l: bv64, m: bv64)
    ensures Intersects(l, m, l & m) && Subtracts(l, m, l & !m)
  {
    CommonBits(l, m);
    OtherBits(l, m);
  }

  lemma CommonBits(l: bv64, m: bv64)
    ensures Intersects(l, m, l & m)
  {
    forall p: bv64 | p < 64 ensures Bit(l & m, p) == (Bit(l, p) && Bit(m, p)) {
      CommonBit(l, m, p);
    }
  }

  lemma OtherBits(l: bv64, m: bv64)
    ensures Subtracts(l, m, l & !m)
  {
    forall p: bv64 | p < 64 ensures Bit(l & !m, p) == (Bit(l, p) && !Bit(m, p)) {
      WithoutBit(l, m, p);
    }
  }

  /** Clearing the masked bits of a leaf, and flushing those that were set. */
  lemma LeafCleared(t: Tables, before: set<BitNo>, g: nat, addr: nat, end: nat, m: bv64, was: bv64, rest: bv64)
    requires SetIs(t, before) && RestMask(addr, end, m) && g == addr / 4096 % LEAVES
    requires Intersects(Leaf(t, g), m, was) && Subtracts(Leaf(t, g), m, rest)
    ensures SetIs(Put(t, g / 256, g % 256, rest), Without(before, g, addr, end))
    ensures LeafFlushed(before, Without(before, g, addr, end),
                        LeafLines(addr - addr % 4096, AllPositions(was)), addr, end)
  {
    WithoutRest(t, before, g, addr, end, m, rest);
    FlushedAreLines(addr - addr % 4096, was);
    RestIsFlushed(t, before, g, addr, end, m, was);
  }

  lemma LeafMasked(t: Tables, before: set<BitNo>, g: nat, addr: nat, end: nat, m: bv64, prev: bv64)
    requires SetIs(t, before) && RestMask(addr, end, m) && g == addr / 4096 % LEAVES && prev == Leaf(t, g)
    ensures SetIs(Put(t, g / 256, g % 256, prev & !m), Without(before, g, addr, end))
    ensures LeafFlushed(before, Without(before, g, addr, end),
                        LeafLines(addr - addr % 4096, AllPositions(prev & m)), addr, end)
  {
    WordOps(prev, m);
    LeafCleared(t, before, g, addr, end, m, prev & m, prev & !m);
  }

  lemma NullLeaf(t: Tables, before: set<BitNo>, g: nat, addr: nat, end: nat)
    requires SetIs(t, before) && g == addr / 4096 % LEAVES
    requires g / 256 !in t || g % 256 !in t[g / 256]
    ensures LeafFlushed(before, before, [], addr, end)
  {
    forall b | b in before ensures b.leaf != g {
      assert IsSet(t, b);
      assert b.leaf == g ==> !Bit(0, b.pos) by {
        NoBit(b.pos);
      }
    }
    assert before == Without(before, g, addr, end);
  }

  /** The lines to process in the leaf of addr. */
  method LeafMask(addr: nat, end: nat, startLine: bv64) returns (mask: bv64)
    requires addr % 64 == 0 && addr < end && startLine < 64 && Nat(startLine) == addr / 64 % 64
    ensures RestMask(addr, end, mask)
  {
    var pageEnd := (addr / 4096 + 1) * 4096;
    mask := RangeMask(startLine, pageEnd <= end, Pos(end / 64 % 64));
    RangeMaskIs(addr, end, mask);
  }

  // ---- a whole range ----

  /** The address of bit b in window w. */
  ghost function Home(w: nat, b: BitNo): nat {
    w * WINDOW + b.leaf * LEAF_BYTES + Nat(b.pos) * 64
  }

  /** The first address from lo on that bit b stands for. */
  ghost function FirstAt(lo: nat, b: BitNo): nat {
    if Home(lo / WINDOW, b) >= lo then Home(lo / WINDOW, b) else Home(lo / WINDOW + 1, b)
  }

  ghost predicate RealBit(b: BitNo) {
    b.leaf < LEAVES && b.pos < 64
  }

  lemma WindowParts(a: nat)
    ensures a == a / WINDOW * WINDOW + (a / 4096 % LEAVES) * 4096 + a % 4096
  {
    assert a / WINDOW == a / 4096 / LEAVES;
    assert a / 4096 == a / 4096 / LEAVES * LEAVES + a / 4096 % LEAVES;
  }

  lemma Quotient(q: nat, n: nat, r: nat)
    requires r < n
    ensures (q * n + r) / n == q && (q * n + r) % n == r
  {
    var d, m := (q * n + r) / n, (q * n + r) % n;
    assert q * n + r == d * n + m;
    assert d > q ==> d * n >= (q + 1) * n;
    assert d < q ==> d * n <= (q - 1) * n;
  }

  /** The leaf and the line of the address of a bit. */
  lemma HomeParts(w: nat, b: BitNo)
    requires RealBit(b)
    ensures var h := Home(w, b);
            h / 4096 % LEAVES == b.leaf && h % 4096 == Nat(b.pos) * 64 && h / WINDOW == w
  {
    HomeNumbers(w, b.leaf, LineNo(b));
  }

  ghost function LineNo(b: BitNo): (n: nat)
    requires b.pos < 64
    ensures n < 64
  {
    NatBound(b.pos);
    Nat(b.pos)
  }

  lemma HomeNumbers(w: nat, g: nat, n: nat)
    requires g < LEAVES && n < 64
    ensures var h := w * WINDOW + g * LEAF_BYTES + n * 64;
            h / 4096 % LEAVES == g && h % 4096 == n * 64 && h / WINDOW == w
  {
    assert w * WINDOW + g * LEAF_BYTES + n * 64 == (w * LEAVES + g) * 4096 + n * 64;
    Quotient(w * LEAVES + g, 4096, n * 64);
    Quotient(w, LEAVES, g);
    Quotient(w, WINDOW, g * LEAF_BYTES + n * 64);
  }

  /** Among the addresses of a bit from lo on, the first one is a window or more below the others. */
  lemma FirstIsFirst(lo: nat, b: BitNo, x: nat)
    requires RealBit(b) && lo <= x && x == Home(x / WINDOW, b)
    ensures lo <= FirstAt(lo, b) <= x
    ensures x < lo + WINDOW ==> x == FirstAt(lo, b)
  {
    HomeParts(lo / WINDOW, b);
    assert lo / WINDOW <= x / WINDOW;
    FirstBounds(lo, b);
  }

  lemma FirstBounds(lo: nat, b: BitNo)
    requires RealBit(b)
    ensures lo <= FirstAt(lo, b) < lo + WINDOW
  {
    HomeParts(lo / WINDOW, b);
    HomeParts(lo / WINDOW + 1, b);
  }

  /** Bit b is in the part of the range before `addr`. */
  ghost predicate Passed(lo: nat, addr: nat, end: nat, b: BitNo) {
    FirstAt(lo, b) < addr && FirstAt(lo, b) < end - end % 64
  }

  /** What a range invalidation has done when it stands at addr. */
  ghost predicate RangeDone(before: set<BitNo>, after: set<BitNo>, out: seq<nat>, lo: nat, addr: nat, end: nat)
  {
    && Distinct(out)
    && (forall a | a in out :: FlushedFrom(before, lo, addr, end, a))
    && (forall b | b in before :: FirstAt(lo, b) in out <==> Passed(lo, addr, end, b))
    && (forall b: BitNo :: b in after <==> b in before && !Passed(lo, addr, end, b))
  }

  ghost predicate FlushedFrom(before: set<BitNo>, lo: nat, addr: nat, end: nat, a: nat) {
    a % 64 == 0 && lo <= a < addr && a < end - end % 64 && a == FirstAt(lo, Id(a)) && Id(a) in before
  }

  ghost function LineAt(addr: nat, p: bv64): nat {
    addr - addr % 4096 + Nat(p) * 64
  }

  /** The line of bit b in the leaf of addr, when the leaf is that of the bit, is one of its addresses. */
  lemma LineIsHome(addr: nat, b: BitNo)
    requires RealBit(b) && b.leaf == addr / 4096 % LEAVES
    ensures LineAt(addr, b.pos) == Home(LineAt(addr, b.pos) / WINDOW, b)
  {
    WindowParts(addr);
    NatBound(b.pos);
    HomeParts(addr / WINDOW, b);
  }

  /** If the first address of bit b is in the leaf of addr, it is the line of the bit there. */
  lemma FirstInLeaf(lo: nat, addr: nat, b: BitNo)
    requires RealBit(b) && addr - addr % 4096 <= FirstAt(lo, b) < addr - addr % 4096 + 4096
    ensures b.leaf == addr / 4096 % LEAVES && FirstAt(lo, b) == LineAt(addr, b.pos)
  {
    HomeParts(lo / WINDOW, b);
    HomeParts(lo / WINDOW + 1, b);
    LeafBase(addr);
    var f := FirstAt(lo, b);
    assert f / 4096 == addr / 4096;
    LeafBase(f);
  }

  lemma StepPassed(lo: nat, addr: nat, end: nat, b: BitNo)
    requires addr % 64 == 0 && lo <= addr && RealBit(b)
    ensures var next := addr - addr % 4096 + 4096;
            Passed(lo, next, end, b) <==>
              Passed(lo, addr, end, b) || (b.leaf == addr / 4096 % LEAVES && InRest(addr, end, b.pos))
  {
    NatBound(b.pos);
    if b.leaf == addr / 4096 % LEAVES && InRest(addr, end, b.pos) {
      LineIsHome(addr, b);
      FirstIsFirst(lo, b, LineAt(addr, b.pos));
    }
    if addr <= FirstAt(lo, b) < addr - addr % 4096 + 4096 {
      FirstInLeaf(lo, addr, b);
    }
  }

  lemma StepDirty(before: set<BitNo>, dirty: set<BitNo>, after: set<BitNo>, lo: nat, addr: nat, end: nat, b: BitNo)
    requires addr % 64 == 0 && lo <= addr && (b in before ==> RealBit(b))
    requires b in dirty <==> b in before && !Passed(lo, addr, end, b)
    requires after == Without(dirty, addr / 4096 % LEAVES, addr, end)
    ensures b in after <==> b in before && !Passed(lo, addr - addr % 4096 + 4096, end, b)
  {
    if b in before {
      StepPassed(lo, addr, end, b);
    }
  }

  lemma JoinDistinct(p: seq<nat>, q: seq<nat>, m: nat)
    requires Distinct(p) && Distinct(q)
    requires forall a | a in p :: a < m
    requires forall a | a in q :: m <= a
    ensures Distinct(p + q)
  {
    forall i: nat, j: nat | i < j < |p + q| ensures (p + q)[i] != (p + q)[j] {
      if i < |p| <= j {
        assert p[i] in p && q[j - |p|] in q;
      }
    }
  }

  lemma LineMultiple(k: nat)
    ensures (k * 64) % 64 == 0
  {
  }

  lemma LineAligned(addr: nat, n: nat)
    ensures (addr - addr % 4096 + n * 64) % 64 == 0
  {
    var m := addr / 4096;
    assert addr - addr % 4096 == m * 4096;
    assert m * 4096 + n * 64 == (m * 64 + n) * 64;
    LineMultiple(m * 64 + n);
  }

  /** A flushed line of the leaf is in the rest of the range. */
  lemma FlushedInRest(before: set<BitNo>, after: set<BitNo>, out: seq<nat>, addr: nat, end: nat, a: nat)
    returns (p: bv64)
    requires LeafFlushed(before, after, out, addr, end) && a in out
    ensures IsLine(addr - addr % 4096, a, p) && InRest(addr, end, p) && BitNo(addr / 4096 % LEAVES, p) in before
  {
    FlushedParts(before, after, out, addr, end);
    p := LineOfOut(addr - addr % 4096, out, a);
    RestOfOut(before, out, addr / 4096 % LEAVES, addr, end, a, p);
  }

  lemma FlushedParts(before: set<BitNo>, after: set<BitNo>, out: seq<nat>, addr: nat, end: nat)
    requires LeafFlushed(before, after, out, addr, end)
    ensures AllLines(addr - addr % 4096, out) && RestFlushed(before, out, addr / 4096 % LEAVES, addr, end)
  {
  }

  lemma LineOfOut(base: nat, out: seq<nat>, a: nat) returns (p: bv64)
    requires AllLines(base, out) && a in out
    ensures IsLine(base, a, p)
  {
    p := Pos((a - base) / 64);
  }

  lemma RestOfOut(before: set<BitNo>, out: seq<nat>, g: nat, addr: nat, end: nat, a: nat, p: bv64)
    requires RestFlushed(before, out, g, addr, end) && a in out && IsLine(addr - addr % 4096, a, p)
    ensures InRest(addr, end, p) && BitNo(g, p) in before
  {
    assert addr - addr % 4096 + Nat(p) * 64 in out;
  }

  lemma RestRange(addr: nat, end: nat, a: nat, p: bv64)
    requires IsLine(addr - addr % 4096, a, p) && InRest(addr, end, p)
    ensures a % 64 == 0 && addr <= a < addr - addr % 4096 + 4096 && a < end - end % 64
  {
    NatBound(p);
    LineAligned(addr, Nat(p));
  }

  lemma IdOfLine(addr: nat, a: nat, p: bv64)
    requires IsLine(addr - addr % 4096, a, p)
    ensures Id(a) == BitNo(addr / 4096 % LEAVES, p)
  {
    NatBound(p);
    LineParts(addr, Nat(p));
    NatInjective(p, Pos(a / 64 % 64));
  }

  lemma LineParts(addr: nat, n: nat)
    requires n < 64
    ensures var a := addr - addr % 4096 + n * 64; a / 4096 == addr / 4096 && a / 64 % 64 == n
  {
    var m := addr / 4096;
    assert addr - addr % 4096 == m * 4096;
  }

  /** A line flushed in the leaf of addr is the first address of its bit, which was dirty all along. */
  lemma StepFlushed(before: set<BitNo>, dirty: set<BitNo>, after: set<BitNo>, page: seq<nat>,
                    lo: nat, addr: nat, end: nat, a: nat)
    requires LeafFlushed(dirty, after, page, addr, end) && a in page
    requires addr % 64 == 0 && lo <= addr && forall b | b in before :: RealBit(b)
    requires forall b: BitNo :: b in dirty <==> b in before && !Passed(lo, addr, end, b)
    ensures addr <= a && FlushedFrom(before, lo, addr - addr % 4096 + 4096, end, a)
  {
    var p := FlushedInRest(dirty, after, page, addr, end, a);
    RestRange(addr, end, a, p);
    IdOfLine(addr, a, p);
    LineIsFirst(lo, addr, end, Id(a));
  }

  /** The line of a bit in the rest of the range is its first address, unless that has been passed. */
  lemma LineIsFirst(lo: nat, addr: nat, end: nat, b: BitNo)
    requires RealBit(b) && b.leaf == addr / 4096 % LEAVES && addr % 64 == 0 && lo <= addr
    requires InRest(addr, end, b.pos) && !Passed(lo, addr, end, b)
    ensures FirstAt(lo, b) == LineAt(addr, b.pos)
  {
    NatBound(b.pos);
    LineIsHome(addr, b);
    FirstIsFirst(lo, b, LineAt(addr, b.pos));
    FirstInLeaf(lo, addr, b);
  }

  lemma FlushedLater(before: set<BitNo>, lo: nat, addr: nat, next: nat, end: nat, a: nat)
    requires addr <= next && FlushedFrom(before, lo, addr, end, a)
    ensures FlushedFrom(before, lo, next, end, a)
  {
  }

  /** Which bits of the whole range have been flushed after one more leaf. */
  lemma StepHome(before: set<BitNo>, dirty: set<BitNo>, out: seq<nat>, page: seq<nat>, lo: nat, addr: nat, end: nat,
                 b: BitNo)
    requires b in before && RealBit(b) && addr % 64 == 0 && lo <= addr
    requires FirstAt(lo, b) in out <==> Passed(lo, addr, end, b)
    requires b in dirty <==> b in before && !Passed(lo, addr, end, b)
    requires RestFlushed(dirty, page, addr / 4096 % LEAVES, addr, end)
    requires forall a | a in page :: addr <= a < addr - addr % 4096 + 4096
    ensures FirstAt(lo, b) in out + page <==> Passed(lo, addr - addr % 4096 + 4096, end, b)
  {
    StepPassed(lo, addr, end, b);
    if addr <= FirstAt(lo, b) < addr - addr % 4096 + 4096 {
      FirstInLeaf(lo, addr, b);
      assert b == BitNo(addr / 4096 % LEAVES, b.pos);
    }
  }

  lemma StepOut(before: set<BitNo>, dirty: set<BitNo>, after: set<BitNo>, out: seq<nat>, page: seq<nat>,
                lo: nat, addr: nat, end: nat)
    requires RangeDone(before, dirty, out, lo, addr, end) && LeafFlushed(dirty, after, page, addr, end)
    requires addr % 64 == 0 && lo <= addr && forall b | b in before :: RealBit(b)
    ensures Distinct(out + page) && forall a | a in page :: addr <= a < addr - addr % 4096 + 4096
    ensures forall a | a in out + page :: FlushedFrom(before, lo, addr - addr % 4096 + 4096, end, a)
  {
    var next := addr - addr % 4096 + 4096;
    forall a | a in page ensures addr <= a < next && FlushedFrom(before, lo, next, end, a) {
      StepFlushed(before, dirty, after, page, lo, addr, end, a);
    }
    forall a | a in out ensures a < addr && FlushedFrom(before, lo, next, end, a) {
      assert FlushedFrom(before, lo, addr, end, a);
      FlushedLater(before, lo, addr, next, end, a);
    }
    JoinDistinct(out, page, addr);
  }

  lemma StepDone(before: set<BitNo>, dirty: set<BitNo>, after: set<BitNo>, out: seq<nat>, page: seq<nat>,
                 lo: nat, addr: nat, end: nat)
    requires RangeDone(before, dirty, out, lo, addr, end) && LeafFlushed(dirty, after, page, addr, end)
    requires addr % 64 == 0 && lo <= addr && forall b | b in before :: RealBit(b)
    ensures RangeDone(before, after, out + page, lo, addr - addr % 4096 + 4096, end)
  {
    var next := addr - addr % 4096 + 4096;
    StepOut(before, dirty, after, out, page, lo, addr, end);
    forall b | b in before ensures FirstAt(lo, b) in out + page <==> Passed(lo, next, end, b) {
      StepHome(before, dirty, out, page, lo, addr, end, b);
    }
    forall b: BitNo ensures b in after <==> b in before && !Passed(lo, next, end, b) {
      StepDirty(before, dirty, after, lo, addr, end, b);
    }
  }

  lemma BitsAreReal(t: Tables, before: set<BitNo>)
    requires SetIs(t, before)
    ensures forall b | b in before :: RealBit(b)
  {
    forall b | b in before ensures RealBit(b) {
      assert IsSet(t, b);
    }
  }

  lemma NothingDone(before: set<BitNo>, lo: nat, end: nat)
    requires forall b | b in before :: RealBit(b)
    ensures RangeDone(before, before, [], lo, lo, end)
  {
    forall b | b in before ensures !Passed(lo, lo, end, b) {
      FirstBounds(lo, b);
    }
  }

  /** One round of the loop. */
  lemma RoundDone(before: set<BitNo>, dirty: set<BitNo>, after: set<BitNo>, out: seq<nat>, page: seq<nat>,
                  lo: nat, at: nat, end: nat)
    requires RangeDone(before, dirty, out, lo, at, end) && LeafFlushed(dirty, after, page, at, end)
    requires at % 64 == 0 && lo <= at && forall b | b in before :: RealBit(b)
    ensures var next := (at / 4096 + 1) * 4096;
            next % 64 == 0 && at < next && RangeDone(before, after, out + page, lo, next, end)
  {
    StepDone(before, dirty, after, out, page, lo, at, end);
    LeafBase(at);
    LineAligned(at, 64);
  }

  /** An aligned address is the home of its own bit. */
  lemma HomeOfId(a: nat)
    requires a % 64 == 0
    ensures Home(a / WINDOW, Id(a)) == a
  {
    WindowParts(a);
    LeafBase(a);
  }

  class CacheLineTracker {
    var tables: Tables

    // the bits that are set
    ghost var dirty: set<BitNo>

    ghost predicate Valid()
      reads this
    {
      SetIs(tables, dirty)
    }

    constructor ()
      ensures Valid() && dirty == {}
    {
      tables, dirty := map[], {};
    }

    method MarkDirty(va: nat)
      requires Valid()
      modifies this
      ensures Valid() && dirty == old(dirty) + {Id(va)}
    {
      var i, j, line, g := SplitVa(va);
      var mask := Get(tables, i, j) | (1 << line);
      SetBits(Get(tables, i, j), line);
      Stored(tables, g, mask);
      Marked(tables, dirty, g, line, mask, Put(tables, i, j, mask));
      tables := Put(tables, i, j, mask);
      dirty := dirty + {Id(va)};
    }

    method IsDirty(va: nat) returns (b: bool)
      requires Valid()
      ensures b <==> Id(va) in dirty
    {
      var i, j, line, g := SplitVa(va);
      if i !in tables || j !in tables[i] {
        NoBit(line);
        return false;
      }
      TestBit(tables[i][j], line);
      b := tables[i][j] & (1 << line) != 0;
    }

    method ClearDirty(va: nat)
      requires Valid()
      modifies this
      ensures Valid() && dirty == old(dirty) - {Id(va)}
    {
      var i, j, line, g := SplitVa(va);
      if i !in tables || j !in tables[i] {
        NoBit(line);
        return;
      }
      var mask := tables[i][j] & !(1 << line);
      ClearBits(tables[i][j], line);
      Stored(tables, g, mask);
      Cleared(tables, dirty, g, line, mask, Put(tables, i, j, mask));
      tables := Put(tables, i, j, mask);
      dirty := dirty - {Id(va)};
    }

    /** True says that the line was dirty; then, and only then, it is invalidated. */
    method InvalidateIfDirty(va: nat) returns (hit: bool, flushed: seq<nat>)
      requires Valid()
      modifies this
      ensures Valid() && hit == (Id(va) in old(dirty)) && dirty == old(dirty) - {Id(va)}
      ensures flushed == if hit then [va] else []
    {
      hit := IsDirty(va);
      flushed := [];
      if hit {
        flushed := [va];
        ClearDirty(va);
      }
    }

    /** One round of the range loop: the leaf of addr, from addr to the end of the range or of the leaf. */
    method InvalidateLeaf(addr: nat, end: nat) returns (out: seq<nat>)
      requires Valid() && addr % 64 == 0 && addr < end
      modifies this
      ensures Valid() && LeafFlushed(old(dirty), dirty, out, addr, end)
    {
      var i, j, startLine, g := SplitVa(addr);
      SplitIs(addr, g, startLine);
      if i !in tables || j !in tables[i] {
        NullLeaf(tables, dirty, g, addr, end);
        return [];
      }
      var mask := LeafMask(addr, end, startLine);
      var prev := tables[i][j];
      LeafMasked(tables, dirty, g, addr, end, mask, prev);
      tables := Put(tables, i, j, prev & !mask);
      out := FlushLeaf(addr - addr % 4096, prev & mask);
      dirty := Without(dirty, g, addr, end);
    }

    /** The loop over the leaves of a range. */
    method InvalidateLeaves(begin: nat, end: nat) returns (out: seq<nat>, ghost addr: nat)
      requires Valid() && begin % 64 == 0
      modifies this
      ensures Valid() && addr >= end && RangeDone(old(dirty), dirty, out, begin, addr, end)
      ensures forall b | b in old(dirty) :: RealBit(b)
    {
      ghost var before := dirty;
      BitsAreReal(tables, before);
      NothingDone(before, begin, end);
      out := [];
      var at := begin;
      while at < end
        invariant Valid() && at % 64 == 0 && begin <= at
        invariant RangeDone(before, dirty, out, begin, at, end)
        decreases end - at
      {
        ghost var dirty0 := dirty;
        var page := InvalidateLeaf(at, end);
        RoundDone(before, dirty0, dirty, out, page, begin, at, end);
        out := out + page;
        at := (at / 4096 + 1) * 4096;
      }
      addr := at;
    }

    /** invalidate_range_if_dirty: every dirty line from the line of begin up to the last whole line before end is
        invalidated once and its bit cleared; since addresses a multiple of WINDOW apart share a bit, of several
        such lines in one range the first is invalidated. */
    method InvalidateRangeIfDirty(begin: nat, end: nat) returns (any: bool, out: seq<nat>)
      requires Valid()
      modifies this
      ensures Valid() && any == (out != []) && Distinct(out)
      ensures forall a: nat ::
                a in out <==> InRange(begin, end, a) && a < begin - begin % 64 + WINDOW && Id(a) in old(dirty)
      ensures forall b: BitNo :: b in dirty <==> b in old(dirty) && !HasLine(begin, end, b)
    {
      ghost var addr;
      ghost var before := dirty;
      out, addr := InvalidateLeaves(begin - begin % 64, end);
      any := out != [];
      RangeIsDone(before, dirty, out, begin, addr, end);
    }
  }

  /** Address a is a line of the range: from the line of begin up to the last whole line before end. */
  ghost predicate InRange(begin: nat, end: nat, a: nat) {
    a % 64 == 0 && begin - begin % 64 <= a < end - end % 64
  }

  /** Some line of the range belongs to bit b. */
  ghost predicate HasLine(begin: nat, end: nat, b: BitNo) {
    exists a: nat :: InRange(begin, end, a) && Id(a) == b
  }

  /** Of the addresses of its bit, an address within a window of lo is the first one. */
  lemma OwnFirst(lo: nat, a: nat)
    requires a % 64 == 0 && lo <= a
    ensures RealBit(Id(a)) && lo <= FirstAt(lo, Id(a)) <= a
    ensures a == FirstAt(lo, Id(a)) <==> a < lo + WINDOW
  {
    HomeOfId(a);
    FirstIsFirst(lo, Id(a), a);
    FirstBounds(lo, Id(a));
  }

  lemma IdOfFirst(lo: nat, b: BitNo)
    requires RealBit(b)
    ensures FirstAt(lo, b) % 64 == 0 && lo <= FirstAt(lo, b) && Id(FirstAt(lo, b)) == b
  {
    HomeParts(lo / WINDOW, b);
    HomeParts(lo / WINDOW + 1, b);
    FirstBounds(lo, b);
    var f := FirstAt(lo, b);
    assert f - f % 4096 + Nat(b.pos) * 64 == f;
    IdOfLine(f, f, b.pos);
    LineAligned(f, Nat(b.pos));
  }

  lemma OutIsDone(before: set<BitNo>, after: set<BitNo>, out: seq<nat>, begin: nat, addr: nat, end: nat, a: nat)
    requires RangeDone(before, after, out, begin - begin % 64, addr, end) && addr >= end
    ensures a in out <==> InRange(begin, end, a) && a < begin - begin % 64 + WINDOW && Id(a) in before
  {
    if a in out {
      OutInRange(before, begin, addr, end, a);
    }
    if InRange(begin, end, a) && a < begin - begin % 64 + WINDOW && Id(a) in before {
      LineIsPassed(begin, addr, end, a);
    }
  }

  lemma OutInRange(before: set<BitNo>, begin: nat, addr: nat, end: nat, a: nat)
    requires FlushedFrom(before, begin - begin % 64, addr, end, a)
    ensures InRange(begin, end, a) && a < begin - begin % 64 + WINDOW && Id(a) in before
  {
    OwnFirst(begin - begin % 64, a);
  }

  lemma LineIsPassed(begin: nat, addr: nat, end: nat, a: nat)
    requires InRange(begin, end, a) && a < begin - begin % 64 + WINDOW && addr >= end
    ensures FirstAt(begin - begin % 64, Id(a)) == a && Passed(begin - begin % 64, addr, end, Id(a))
  {
    OwnFirst(begin - begin % 64, a);
  }

  lemma BitIsDone(begin: nat, addr: nat, end: nat, b: BitNo)
    requires addr >= end && RealBit(b)
    ensures Passed(begin - begin % 64, addr, end, b) <==> HasLine(begin, end, b)
  {
    var lo := begin - begin % 64;
    IdOfFirst(lo, b);
    if Passed(lo, addr, end, b) {
      assert InRange(begin, end, FirstAt(lo, b));
    }
    if a: nat :| InRange(begin, end, a) && Id(a) == b {
      OwnFirst(lo, a);
    }
  }

  lemma RangeIsDone(before: set<BitNo>, after: set<BitNo>, out: seq<nat>, begin: nat, addr: nat, end: nat)
    requires RangeDone(before, after, out, begin - begin % 64, addr, end) && addr >= end
    requires forall b | b in before :: RealBit(b)
    ensures forall a: nat :: a in out <==> InRange(begin, end, a) && a < begin - begin % 64 + WINDOW && Id(a) in before
    ensures forall b: BitNo :: b in after <==> b in before && !HasLine(begin, end, b)
  {
    forall a: nat
      ensures a in out <==> InRange(begin, end, a) && a < begin - begin % 64 + WINDOW && Id(a) in before
    {
      OutIsDone(before, after, out, begin, addr, end, a);
    }
    forall b: BitNo
      ensures b in after <==> b in before && !HasLine(begin, end, b)
    {
      if b in before {
        BitIsDone(begin, addr, end, b);
      }
    }
  }

  lemma SplitIs(va: nat, g: nat, line: bv64)
    requires Id(va) == BitNo(g, line)
    ensures g == va / 4096 % LEAVES && Nat(line) == va / 64 % 64
  {
  }

  lemma NoBit(p: bv64)
    requires p < 64
    ensures !Bit(0, p)
  {
  }
}
