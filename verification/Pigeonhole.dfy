/** Counting facts about buffers, and slots of a ring indexed by an ever-growing index. */
module Pigeonhole {

  ghost predicate Distinct<T>(s: seq<T>) {
    forall i: nat, j: nat | i < j < |s| :: s[i] != s[j]
  }

  ghost function Elements(s: seq<nat>): set<nat> {
    set x | x in s
  }

  ghost function Below(n: nat): (s: set<nat>)
    ensures forall x: nat :: x in s <==> x < n
  {
    if n == 0 then {} else Below(n - 1) + {n - 1}
  }

  lemma {:induction false} BelowSize(n: nat)
    ensures |Below(n)| == n
  {
    if n > 0 {
      BelowSize(n - 1);
      assert Below(n) == Below(n - 1) + {n - 1};
    }
  }

  lemma SubsetSize(a: set<nat>, b: set<nat>)
    requires a <= b
    ensures |a| <= |b|
  {
    assert b == a + (b - a);
  }

  lemma {:induction false} ElementsSize(s: seq<nat>)
    ensures |Elements(s)| <= |s|
    ensures Distinct(s) ==> |Elements(s)| == |s|
  {
    if s != [] {
      var init, last := s[..|s| - 1], s[|s| - 1];
      ElementsSize(init);
      assert s == init + [last];
      assert Elements(s) == Elements(init) + {last};
      if Distinct(s) {
        assert last !in Elements(init);
      }
    }
  }

  /** Distinct numbers below n are at most n many. */
  lemma DistinctFits(s: seq<nat>, n: nat)
    requires Distinct(s) && forall i: nat | i < |s| :: s[i] < n
    ensures |s| <= n
  {
    ElementsSize(s);
    BelowSize(n);
    SubsetSize(Elements(s), Below(n));
  }

  /** A sequence that names every number below n has at least n elements. */
  lemma CoveringIsLong(s: seq<nat>, n: nat)
    requires forall b: nat | b < n :: b in s
    ensures n <= |s|
  {
    ElementsSize(s);
    BelowSize(n);
    SubsetSize(Below(n), Elements(s));
  }

  /** Slot of index k in a ring of `size` slots: `k & (size - 1)` for a size that is a power of two. */
  function SlotOf(k: nat, size: nat): (j: nat)
    requires size > 0
    ensures j < size
  {
    if k < size then k else SlotOf(k - size, size)
  }

  lemma {:induction false} SlotOfIsMod(k: nat, size: nat)
    requires size > 0
    ensures SlotOf(k, size) == k % size
  {
    if k >= size {
      SlotOfIsMod(k - size, size);
      assert k % size == (k - size) % size by {
        ModShift(k - size, size);
      }
    }
  }

  lemma ModShift(a: nat, m: nat)
    requires m > 0
    ensures (a + m) % m == a % m
  {
    var q, r := a / m, a % m;
    assert a + m == (q + 1) * m + r;
    ModUnique(a + m, m, q + 1, r);
  }

  lemma ModUnique(a: nat, m: nat, q: nat, r: nat)
    requires r < m && a == q * m + r
    ensures a % m == r
  {
    var q', r' := a / m, a % m;
    assert a == q' * m + r';
    MultipleBound(q - q', m);
    assert (q - q') * m == r' - r;
  }

  /** A multiple of m that is nearer to 0 than m is 0. */
  lemma MultipleBound(d: int, m: nat)
    requires m > 0
    ensures -(m as int) < d * m < m ==> d == 0
  {
    if d >= 1 {
      assert d * m >= 1 * m;
    } else if d <= -1 {
      assert d * m <= -1 * m;
    }
  }

  /** Indices less than a full round apart have different slots. */
  lemma {:induction false} SlotsDiffer(k: nat, l: nat, size: nat)
    requires size > 0 && k < l < k + size
    ensures SlotOf(k, size) != SlotOf(l, size)
  {
    if k >= size {
      SlotsDiffer(k - size, l - size, size);
    }
  }
}
