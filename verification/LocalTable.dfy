/**
 LocalCLTable: the dirty lines of one thread, packed into a bounded linear-probing table that is only ever
 inserted into and cleared.
 */
module LocalTable {
  import opened ClGroup
  import opened Pigeonhole

  /** Probe number i for a group; the code masks with the size less one, the size being a power of two. */
  function Probe(index: bv64, i: nat, size: nat): (k: nat)
    requires size > 0
    ensures k < size
  {
    SlotOf(index as nat + i, size)
  }

  // ---- the table as a sequence of entries ----

  ghost predicate EntriesOk(t: seq<bv64>)
  {
    forall k: nat | k < |t| && t[k] != 0 :: MaskEntry(t[k])
  }

  /** No two entries share a group. */
  ghost predicate OneEntryEach(t: seq<bv64>)
  {
    forall j: nat, k: nat | j < k < |t| && t[j] != 0 && t[k] != 0 :: GetIndex(t[j]) != GetIndex(t[k])
  }

  /** Entry k sits at a probe of its group, and the probes before it are taken. */
  ghost predicate ReachedAt(t: seq<bv64>, k: nat, i: nat)
    requires k < |t|
  {
    k == Probe(GetIndex(t[k]), i, |t|) && forall j: nat | j < i :: t[Probe(GetIndex(t[k]), j, |t|)] != 0
  }

  ghost predicate NoGaps(iters: nat, t: seq<bv64>)
  {
    forall k: nat | k < |t| && t[k] != 0 :: exists i: nat | i < iters :: ReachedAt(t, k, i)
  }

  ghost predicate TableOk(iters: nat, t: seq<bv64>)
  {
    EntriesOk(t) && OneEntryEach(t) && NoGaps(iters, t)
  }

  /** Line l is in the table. */
  ghost predicate Member(t: seq<bv64>, l: bv64)
  {
    exists k: nat | k < |t| :: t[k] != 0 && Holds(t[k], l)
  }

  /** Probe i is taken by another group. */
  ghost predicate TakenByOther(t: seq<bv64>, index: bv64, i: nat)
    requires |t| > 0
  {
    t[Probe(index, i, |t|)] != 0 && GetIndex(t[Probe(index, i, |t|)]) != index
  }

  /** The entry that table value v turns into. */
  function Extended(v: bv64, index: bv64, mask: bv64): bv64
  {
    WithMask(if v != 0 then v else index, mask)
  }

  // ---- what one insertion does to it ----

  /** What the probing loop has found when it stops at probe i. */
  ghost predicate StopsAt(t: seq<bv64>, index: bv64, i: nat)
    requires |t| > 0
  {
    && (forall j: nat | j < i :: TakenByOther(t, index, j))
    && (t[Probe(index, i, |t|)] == 0 || GetIndex(t[Probe(index, i, |t|)]) == index)
  }

  /** An empty probe means that the group has no entry anywhere. */
  lemma NoEntryBeyond(iters: nat, t: seq<bv64>, index: bv64, i: nat, k: nat)
    requires |t| > 0 && TableOk(iters, t) && StopsAt(t, index, i)
    requires k < |t| && k != Probe(index, i, |t|) && t[k] != 0
    ensures GetIndex(t[k]) != index
  {
    var i': nat :| i' < iters && ReachedAt(t, k, i');
    assert i' < i ==> TakenByOther(t, index, i');
  }

  lemma StillReached(iters: nat, t: seq<bv64>, p: nat, w: bv64, k: nat)
    requires NoGaps(iters, t) && p < |t| && k < |t| && t[k] != 0 && w != 0
    requires k == p ==> GetIndex(w) == GetIndex(t[k])
    ensures var t' := t[p := w]; exists i: nat | i < iters :: ReachedAt(t', k, i)
  {
    var i: nat :| i < iters && ReachedAt(t, k, i);
    var t' := t[p := w];
    assert ReachedAt(t', k, i);
  }

  lemma InsertedApart(iters: nat, t: seq<bv64>, index: bv64, i: nat, p: nat, w: bv64)
    requires |t| > 0 && TableOk(iters, t) && StopsAt(t, index, i)
    requires p == Probe(index, i, |t|) && w != 0 && MaskEntry(w) && GetIndex(w) == index
    ensures EntriesOk(t[p := w]) && OneEntryEach(t[p := w])
  {
    forall k: nat | k < |t| && k != p && t[k] != 0 ensures GetIndex(t[k]) != index {
      NoEntryBeyond(iters, t, index, i, k);
    }
  }

  lemma InsertedReached(t: seq<bv64>, index: bv64, i: nat, p: nat, w: bv64)
    requires |t| > 0 && StopsAt(t, index, i)
    requires p == Probe(index, i, |t|) && w != 0 && GetIndex(w) == index
    ensures ReachedAt(t[p := w], p, i)
  {
    var t' := t[p := w];
    forall j: nat | j < i ensures t'[Probe(index, j, |t'|)] != 0 {
      assert TakenByOther(t, index, j);
    }
  }

  lemma InsertedOk(iters: nat, t: seq<bv64>, index: bv64, i: nat, p: nat, w: bv64)
    requires |t| > 0 && TableOk(iters, t) && i < iters && StopsAt(t, index, i)
    requires p == Probe(index, i, |t|) && w != 0 && MaskEntry(w) && GetIndex(w) == index
    ensures TableOk(iters, t[p := w])
  {
    var t' := t[p := w];
    InsertedApart(iters, t, index, i, p, w);
    InsertedReached(t, index, i, p, w);
    forall k: nat | k < |t'| && t'[k] != 0 ensures exists j: nat | j < iters :: ReachedAt(t', k, j) {
      if t[k] != 0 {
        StillReached(iters, t, p, w, k);
      }
    }
  }

  ghost predicate AddsBit(t: bv64, w: bv64, l: bv64, x: bv64) {
    Bit(GetMask16(w), x & 0xF) == ((t != 0 && Bit(GetMask16(t), x & 0xF)) || x & 0xF == l & 0xF)
  }

  lemma OtherGroup(v: bv64, l: bv64, x: bv64)
    requires GetIndex(v) == l >> 4 && x >> 4 != l >> 4
    ensures !Holds(v, x)
  {
  }

  lemma OwnGroup(v: bv64, l: bv64, x: bv64)
    requires GetIndex(v) == l >> 4 && x >> 4 == l >> 4
    ensures Holds(v, x) == Bit(GetMask16(v), x & 0xF)
  {
  }

  lemma ExtendedSame(v: bv64, w: bv64, l: bv64, x: bv64)
    requires GetIndex(w) == l >> 4 && (v != 0 ==> GetIndex(v) == l >> 4) && AddsBit(v, w, l, x)
    requires x >> 4 == l >> 4
    ensures Holds(w, x) <==> (v != 0 && Holds(v, x)) || x & 0xF == l & 0xF
  {
    OwnGroup(w, l, x);
    if v != 0 {
      OwnGroup(v, l, x);
    }
  }

  lemma ExtendedOther(v: bv64, w: bv64, l: bv64, x: bv64)
    requires GetIndex(w) == l >> 4 && (v != 0 ==> GetIndex(v) == l >> 4)
    requires x >> 4 != l >> 4
    ensures !Holds(w, x) && !(v != 0 && Holds(v, x))
  {
    OtherGroup(w, l, x);
    if v != 0 {
      OtherGroup(v, l, x);
    }
  }

  /** The new entry names the lines of the old one and line l. */
  lemma ExtendedHolds(v: bv64, w: bv64, l: bv64, x: bv64)
    requires GetIndex(w) == l >> 4 && (v != 0 ==> GetIndex(v) == l >> 4) && AddsBit(v, w, l, x)
    ensures Holds(w, x) <==> (v != 0 && Holds(v, x)) || x == l
  {
    SameLine(x, l);
    if x >> 4 == l >> 4 {
      ExtendedSame(v, w, l, x);
    } else {
      ExtendedOther(v, w, l, x);
    }
  }

  lemma ExtendedOk(v: bv64, index: bv64, mask: bv64)
    requires Fits(index) && 0 < mask <= 0xFFFF && (v != 0 ==> MaskEntry(v) && GetIndex(v) == index)
    ensures var w := Extended(v, index, mask); w != 0 && MaskEntry(w) && GetIndex(w) == index
  {
    if v != 0 {
      ExtendedEntry(v, mask);
    } else {
      FreshEntry(index, mask);
    }
  }

  lemma ExtendedAdds(v: bv64, index: bv64, l: bv64, x: bv64)
    requires Fits(index)
    ensures AddsBit(v, Extended(v, index, 1 << (l & 0xF)), l, x)
  {
    PositionMask(l);
    AddsOne(v, index, 1 << (l & 0xF), l & 0xF, x & 0xF);
  }

  lemma AddsOne(v: bv64, index: bv64, mask: bv64, p: bv64, q: bv64)
    requires Fits(index) && p < 16 && q < 16 && 0 < mask <= 0xFFFF && mask == 1 << p
    ensures Bit(GetMask16(Extended(v, index, mask)), q) == ((v != 0 && Bit(GetMask16(v), q)) || q == p)
  {
    OneBit(p, q);
    if v != 0 {
      ExtendedBits(v, mask, q);
    } else {
      FreshBits(index, mask, q);
    }
  }

  lemma MemberShifts(t: seq<bv64>, p: nat, w: bv64, l: bv64, x: bv64)
    requires p < |t| && w != 0
    requires Holds(w, x) <==> (t[p] != 0 && Holds(t[p], x)) || x == l
    ensures var t' := t[p := w]; Member(t', x) <==> Member(t, x) || x == l
  {
    var t' := t[p := w];
    assert t'[p] == w;
    if Member(t, x) {
      var k: nat :| k < |t| && t[k] != 0 && Holds(t[k], x);
      assert t'[k] != 0 && Holds(t'[k], x);
    }
  }

  lemma PositionMask(l: bv64)
    ensures var m: bv64 := 1 << (l & 0xF); 0 < m <= 0xFFFF
  {
  }

  /** A successful insertion of line l keeps the table well formed and adds exactly l. */
  lemma InsertAdds(iters: nat, t: seq<bv64>, l: bv64, i: nat, p: nat, w: bv64)
    requires |t| > 0 && TableOk(iters, t) && i < iters && StopsAt(t, l >> 4, i)
    requires Fits(l >> 4) && p == Probe(l >> 4, i, |t|)
    requires w != 0 && MaskEntry(w) && GetIndex(w) == l >> 4 && forall x: bv64 :: AddsBit(t[p], w, l, x)
    ensures TableOk(iters, t[p := w])
    ensures forall x: bv64 :: Member(t[p := w], x) <==> Member(t, x) || x == l
  {
    InsertedOk(iters, t, l >> 4, i, p, w);
    forall x: bv64 ensures Member(t[p := w], x) <==> Member(t, x) || x == l {
      ExtendedHolds(t[p], w, l, x);
      MemberShifts(t, p, w, l, x);
    }
  }

  lemma ExtendedInserts(v: bv64, l: bv64)
    requires Fits(l >> 4) && (v != 0 ==> MaskEntry(v) && GetIndex(v) == l >> 4)
    ensures var w := Extended(v, l >> 4, 1 << (l & 0xF));
            w != 0 && MaskEntry(w) && GetIndex(w) == l >> 4 && forall x: bv64 :: AddsBit(v, w, l, x)
  {
    PositionMask(l);
    ExtendedOk(v, l >> 4, 1 << (l & 0xF));
    var w := Extended(v, l >> 4, 1 << (l & 0xF));
    forall x: bv64 ensures AddsBit(v, w, l, x) {
      ExtendedAdds(v, l >> 4, l, x);
    }
  }

  /** Why an insertion fails: the line number has more than 48 - VIRTUAL_CL_SHIFT bits, or all probes belong to
      other groups. */
  ghost predicate Rejects(iters: nat, t: seq<bv64>, index: bv64)
    requires |t| > 0
  {
    !Fits(index) || forall i: nat | i < iters :: TakenByOther(t, index, i)
  }

  lemma AnyBit(m: bv64) returns (p: bv64)
    requires 0 < m <= 0xFFFF
    ensures p < 16 && Bit(m, p)
  {
    p := if m & 0xFF == 0 then 8 else 0;
    p := if (m >> p) & 0xF == 0 then p + 4 else p;
    p := if (m >> p) & 0x3 == 0 then p + 2 else p;
    p := if (m >> p) & 0x1 == 0 then p + 1 else p;
  }

  lemma LineOf(index: bv64, p: bv64) returns (l: bv64)
    requires Fits(index) && p < 16
    ensures l >> 4 == index && l & 0xF == p
  {
    l := (index << 4) | p;
    LineParts(index, p);
  }

  /** Every entry names some line. */
  lemma EntryNames(v: bv64) returns (l: bv64)
    requires MaskEntry(v)
    ensures Holds(v, l)
  {
    var p := AnyBit(GetMask16(v));
    IndexFits(v);
    l := LineOf(GetIndex(v), p);
  }

  /** A table without lines takes any line whose address has 48 bits, and no other. */
  lemma EmptyAccepts(iters: nat, t: seq<bv64>, index: bv64)
    requires |t| > 0 && iters > 0 && EntriesOk(t) && forall l: bv64 :: !Member(t, l)
    ensures Rejects(iters, t, index) <==> !Fits(index)
  {
    AllZero(t, Probe(index, 0, |t|));
    assert !TakenByOther(t, index, 0);
  }

  lemma MemberAt(t: seq<bv64>, k: nat) returns (l: bv64)
    requires k < |t| && EntriesOk(t) && t[k] != 0
    ensures Member(t, l)
  {
    l := EntryNames(t[k]);
    assert t[k] != 0 && Holds(t[k], l);
  }

  lemma AllZero(t: seq<bv64>, k: nat)
    requires k < |t| && EntriesOk(t) && forall l: bv64 :: !Member(t, l)
    ensures t[k] == 0
  {
    if t[k] != 0 {
      var l := MemberAt(t, k);
    }
  }

  /** The loop has passed probes 0 to i - 1. */
  ghost predicate Searched(t: seq<bv64>, index: bv64, i: nat)
    requires |t| > 0
  {
    Fits(index) ==> forall j: nat | j < i :: TakenByOther(t, index, j)
  }

  class LocalCLTable {
    const iters: nat        // LOCAL_CL_TABLE_SEARCH_ITERS
    const table: array<bv64>

    // the lines inserted since the table was last cleared
    ghost var lines: set<bv64>

    ghost predicate Valid()
      reads this, table
    {
      && iters > 0 && table.Length > 0
      && TableOk(iters, table[..])
      && forall l: bv64 :: l in lines <==> Member(table[..], l)
    }

    constructor (iters: nat, size: nat)
      requires iters > 0 && size > 0
      ensures Valid() && fresh(table) && lines == {}
      ensures this.iters == iters && table.Length == size
    {
      this.iters := iters;
      table := new bv64[size](_ => 0);
      lines := {};
    }

    /** insert_mask: true means that nothing could be inserted; else `at` is the probe that was used. */
    method InsertMask(index: bv64, mask: bv64) returns (full: bool, ghost at: nat)
      requires table.Length > 0
      modifies table
      ensures full == Rejects(iters, old(table[..]), index)
      ensures full ==> table[..] == old(table[..])
      ensures !full ==> at < iters && StopsAt(old(table[..]), index, at)
      ensures !full ==>
                var p := Probe(index, at, table.Length);
                table[..] == old(table[..])[p := Extended(old(table[p]), index, mask)]
    {
      ghost var t := table[..];
      var i := 0;
      while i < iters
        invariant i <= iters && table[..] == t
        invariant Searched(t, index, i)
      {
        var k := Probe(index, i, table.Length);
        var value := table[k];
        value := if value != 0 then value else index;
        if GetIndex(value) == index {
          MatchStops(t, index, i);
          table[k] := WithMask(value, mask);
          return false, i;
        }
        MissIsTaken(t, index, i);
        i := i + 1;
      }
      return true, 0;
    }

    /** insert: true means that the line could not be inserted. */
    method Insert(l: bv64) returns (full: bool)
      requires Valid()
      modifies this`lines, table
      ensures Valid()
      ensures full == Rejects(iters, old(table[..]), l >> 4)
      ensures if full then lines == old(lines) && table[..] == old(table[..]) else lines == old(lines) + {l}
    {
      var index := l >> 4;
      var pos := l & 0xF;
      ghost var at;
      full, at := InsertMask(index, 1 << pos);
      if !full {
        ghost var p := Probe(index, at, table.Length);
        ExtendedInserts(old(table[p]), l);
        InsertAdds(iters, old(table[..]), l, at, p, Extended(old(table[p]), index, 1 << pos));
        lines := lines + {l};
      }
    }

    method ClearTable()
      requires Valid()
      modifies this`lines, table
      ensures Valid() && lines == {}
      ensures forall k: nat | k < table.Length :: table[k] == 0
    {
      var k := 0;
      while k < table.Length
        invariant k <= table.Length && forall j: nat | j < k :: table[j] == 0
      {
        table[k] := 0;
        k := k + 1;
      }
      lines := {};
    }
  }

  lemma MatchStops(t: seq<bv64>, index: bv64, i: nat)
    requires |t| > 0
    requires Searched(t, index, i)
    requires var v := t[Probe(index, i, |t|)]; GetIndex(if v != 0 then v else index) == index
    ensures Fits(index) && StopsAt(t, index, i) && !TakenByOther(t, index, i)
  {
    var v := t[Probe(index, i, |t|)];
    IndexFits(if v != 0 then v else index);
  }

  lemma MissIsTaken(t: seq<bv64>, index: bv64, i: nat)
    requires |t| > 0
    requires var v := t[Probe(index, i, |t|)]; GetIndex(if v != 0 then v else index) != index
    ensures Searched(t, index, i) ==> Searched(t, index, i + 1)
  {
    IndexOfItself(index);
  }
}
