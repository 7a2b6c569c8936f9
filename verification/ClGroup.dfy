/**
 Packed entries of the dirty-line table and of the logs: 64 bits that hold a group index and either a mask of
 the 16 lines of that group, or a number of consecutive groups.  A line number is an address without its
 offset in the line.  SHIFT is GROUP_INDEX_SHIFT, which the build fixes: 38 for lines of 64 bytes, and one less
 for each doubling of the line (CL_EXPAND_SHIFT), down to 33.  VIRTUAL_CL_SHIFT is then 44 - SHIFT, and
 GROUP_SHIFT is 48 - SHIFT.  Everything here holds for each of the six values.
 */
module ClGroup {
  import opened Pigeonhole

  type Shift = s: bv64 | 33 <= s <= 38 witness 38

  const SHIFT: Shift

  predicate IsLengthBased(v: bv64) {
    v & 0x8000_0000_0000_0000 != 0
  }

  function GetLength(v: bv64): bv64
  {
    (v & 0x7FFF_FFFF_FFFF_FFFF) >> SHIFT
  }

  function GetIndex(v: bv64): bv64
  {
    v & ((1 << SHIFT) - 1)
  }

  function GetPtr(v: bv64): bv64
  {
    GetIndex(v) << (48 - SHIFT)
  }

  function GetMask16(v: bv64): bv64
  {
    v >> SHIFT
  }

  // ---- bits of a mask ----

  predicate Bit(m: bv64, p: bv64)
    requires p < 64
  {
    (m >> p) & 1 == 1
  }

  ghost predicate NoneBelow(m: bv64, p: bv64)
    requires p <= 64
  {
    m & ((1 << p) - 1) == 0
  }

  /** The positions of the bits of m from p up, in ascending order. */
  ghost function Positions(m: bv64, p: bv64): seq<bv64>
    requires p <= 64
    decreases 64 - p
  {
    if p == 64 then [] else if Bit(m, p) then [p] + Positions(m, p + 1) else Positions(m, p + 1)
  }

  lemma {:induction false} PositionsAreBits(m: bv64, p: bv64, q: bv64)
    requires p <= 64
    ensures q in Positions(m, p) <==> p <= q < 64 && Bit(m, q)
    decreases 64 - p
  {
    if p < 64 {
      PositionsAreBits(m, p + 1, q);
    }
  }

  lemma PrependDistinct<T>(x: T, q: seq<T>)
    requires Distinct(q) && x !in q
    ensures Distinct([x] + q)
  {
  }

  lemma {:induction false} PositionsDistinct(m: bv64, p: bv64)
    requires p <= 64
    ensures Distinct(Positions(m, p))
    decreases 64 - p
  {
    if p < 64 {
      PositionsDistinct(m, p + 1);
      PositionsAreBits(m, p + 1, p);
      PrependDistinct(p, Positions(m, p + 1));
    }
  }

  lemma LowestBit(m: bv64, c: bv64)
    requires c < 64 && Bit(m, c) && NoneBelow(m, c)
    ensures m ^ (m & -m) == m ^ (1 << c)
    ensures m ^ (m & -m) < m
  {
  }

  lemma ToggledBit(m: bv64, c: bv64, q: bv64)
    requires c < 64 && q < 64
    ensures Bit(m ^ (1 << c), q) == (if c == q then !Bit(m, q) else Bit(m, q))
  {
  }

  lemma ClearBelow(m: bv64, c: bv64, q: bv64)
    requires q < c < 64 && NoneBelow(m, c)
    ensures !Bit(m, q)
  {
  }

  lemma NothingBelow(m: bv64, c: bv64)
    requires c < 64 && NoneBelow(m, c)
    ensures NoneBelow(m ^ (1 << c), c)
  {
  }

  lemma OneBit(p: bv64, q: bv64)
    requires p < 64 && q < 64
    ensures Bit(1 << p, q) == (p == q)
  {
  }

  lemma {:induction false} SkipClear(m: bv64, p: bv64, c: bv64)
    requires p <= c < 64 && NoneBelow(m, c)
    ensures Positions(m, p) == Positions(m, c)
    decreases c - p
  {
    if p < c {
      ClearBelow(m, c, p);
      SkipClear(m, p + 1, c);
    }
  }

  lemma {:induction false} ToggleAbove(m: bv64, c: bv64, p: bv64)
    requires c < p <= 64
    ensures Positions(m, p) == Positions(m ^ (1 << c), p)
    decreases 64 - p
  {
    if p < 64 {
      ToggledBit(m, c, p);
      ToggleAbove(m, c, p + 1);
    }
  }

  /** Clearing the lowest set bit removes exactly the first position. */
  lemma ClearLowest(m: bv64, c: bv64)
    requires c < 64 && Bit(m, c) && NoneBelow(m, c)
    ensures Positions(m, 0) == [c] + Positions(m ^ (1 << c), 0)
  {
    SkipClear(m, 0, c);
    NothingBelow(m, c);
    SkipClear(m ^ (1 << c), 0, c);
    ToggledBit(m, c, c);
    ToggleAbove(m, c, c + 1);
  }

  /** __builtin_ctzl: the position of the lowest set bit. */
  method CountTrailingZeros(m: bv64) returns (c: bv64)
    requires m != 0
    ensures c < 64 && Bit(m, c) && NoneBelow(m, c)
  {
    c := if m & 0xFFFF_FFFF == 0 then 32 else 0;
    c := if (m >> c) & 0xFFFF == 0 then c + 16 else c;
    c := if (m >> c) & 0xFF == 0 then c + 8 else c;
    c := if (m >> c) & 0xF == 0 then c + 4 else c;
    c := if (m >> c) & 0x3 == 0 then c + 2 else c;
    c := if (m >> c) & 0x1 == 0 then c + 1 else c;
  }

  // ---- mask entries, and the lines they stand for ----

  /** A group index of a 48-bit address. */
  predicate Fits(index: bv64) {
    index <= (1 << SHIFT) - 1
  }

  ghost predicate MaskEntry(v: bv64) {
    !IsLengthBased(v) && 0 < GetMask16(v) <= 0xFFFF
  }

  /** Mask entry v names line number l. */
  ghost predicate Holds(v: bv64, l: bv64) {
    GetIndex(v) == l >> 4 && Bit(GetMask16(v), l & 0xF)
  }

  /** A table value with the lines of `mask` added. */
  function WithMask(v: bv64, mask: bv64): bv64 {
    v | (mask << SHIFT)
  }

  lemma FreshEntry(index: bv64, mask: bv64)
    requires Fits(index) && 0 < mask <= 0xFFFF
    ensures WithMask(index, mask) != 0 && MaskEntry(WithMask(index, mask))
    ensures GetIndex(WithMask(index, mask)) == index
  {
  }

  lemma FreshBits(index: bv64, mask: bv64, p: bv64)
    requires Fits(index) && mask <= 0xFFFF && p < 16
    ensures Bit(GetMask16(WithMask(index, mask)), p) == Bit(mask, p)
  {
  }

  lemma ExtendedIndex(v: bv64, mask: bv64)
    ensures GetIndex(WithMask(v, mask)) == GetIndex(v)
  {
  }

  /** Nothing above the 16 bits of the mask. */
  predicate Short(v: bv64) {
    v <= (0x1_0000 << SHIFT) - 1
  }

  lemma EntryIsShort(v: bv64)
    requires MaskEntry(v)
    ensures Short(v) && GetMask16(v) != 0
  {
  }

  lemma ShortIsEntry(v: bv64)
    requires Short(v) && GetMask16(v) != 0
    ensures MaskEntry(v)
  {
  }

  lemma StaysShort(v: bv64, mask: bv64)
    requires Short(v) && mask <= 0xFFFF
    ensures Short(WithMask(v, mask))
  {
  }

  lemma StaysMasked(v: bv64, mask: bv64)
    requires GetMask16(v) != 0
    ensures GetMask16(WithMask(v, mask)) != 0 && WithMask(v, mask) != 0
  {
  }

  /** Adding a mask keeps an entry an entry of its group. */
  lemma ExtendedEntry(v: bv64, mask: bv64)
    requires MaskEntry(v) && 0 < mask <= 0xFFFF
    ensures WithMask(v, mask) != 0 && MaskEntry(WithMask(v, mask))
    ensures GetIndex(WithMask(v, mask)) == GetIndex(v)
  {
    ExtendedIndex(v, mask);
    EntryIsShort(v);
    StaysShort(v, mask);
    StaysMasked(v, mask);
    ShortIsEntry(WithMask(v, mask));
  }

  lemma MaskBit(mask: bv64, p: bv64)
    requires mask <= 0xFFFF && p < 16
    ensures Bit(GetMask16(mask << SHIFT), p) == Bit(mask, p)
  {
  }

  lemma BitAt(v: bv64, p: bv64)
    requires p < 16
    ensures p + SHIFT < 64 && Bit(GetMask16(v), p) == Bit(v, p + SHIFT)
  {
  }

  lemma OrBit(v: bv64, x: bv64, q: bv64)
    requires q < 64
    ensures Bit(v | x, q) == (Bit(v, q) || Bit(x, q))
  {
  }

  lemma JoinBit(v: bv64, x: bv64, p: bv64)
    requires p < 16
    ensures Bit(GetMask16(v | x), p) == (Bit(GetMask16(v), p) || Bit(GetMask16(x), p))
  {
    BitAt(v, p);
    BitAt(x, p);
    BitAt(v | x, p);
    OrBit(v, x, p + SHIFT);
  }

  /** ... and adds its bits. */
  lemma ExtendedBits(v: bv64, mask: bv64, p: bv64)
    requires mask <= 0xFFFF && p < 16
    ensures Bit(GetMask16(WithMask(v, mask)), p) == (Bit(GetMask16(v), p) || Bit(mask, p))
  {
    MaskBit(mask, p);
    JoinBit(v, mask << SHIFT, p);
  }

  /** A 48-bit address, and no other, has a group index that fits. */
  lemma AddressFits(a: bv64)
    ensures a < 0x1_0000_0000_0000 <==> Fits(a >> (44 - SHIFT) >> 4)
  {
  }

  lemma IndexFits(v: bv64)
    ensures Fits(GetIndex(v))
  {
  }

  lemma IndexOfItself(index: bv64)
    ensures Fits(index) <==> GetIndex(index) == index
  {
  }

  lemma LineParts(index: bv64, p: bv64)
    requires Fits(index) && p < 16
    ensures ((index << 4) | p) >> 4 == index && ((index << 4) | p) & 0xF == p
  {
  }

  lemma SameLine(x: bv64, l: bv64)
    ensures x >> 4 == l >> 4 && x & 0xF == l & 0xF <==> x == l
  {
  }
}
