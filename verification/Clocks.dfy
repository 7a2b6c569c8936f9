/** Vector clocks as values: the order, the element-wise maximum and its lattice laws. */
module Clocks {

  type Clock = seq<nat>

  function Max(a: nat, b: nat): nat {
    if a > b then a else b
  }

  ghost predicate Leq(a: Clock, b: Clock) {
    |a| == |b| && forall i | 0 <= i < |a| :: a[i] <= b[i]
  }

  /** The first j elements of a are at most those of b. */
  ghost predicate LeqUpto(a: Clock, b: Clock, j: nat) {
    |a| == |b| && forall i: nat | i < j && i < |a| :: a[i] <= b[i]
  }

  function Merge(a: Clock, b: Clock): (c: Clock)
    requires |a| == |b|
    ensures |c| == |a|
    ensures forall i | 0 <= i < |a| :: c[i] == Max(a[i], b[i])
  {
    seq(|a|, i requires 0 <= i < |a| => Max(a[i], b[i]))
  }

  function Zero(n: nat): (c: Clock)
    ensures |c| == n && forall i | 0 <= i < n :: c[i] == 0
  {
    seq(n, _ => 0)
  }

  /** Merge is the least upper bound, so it is the join of the clock order. */
  lemma MergeIsJoin(a: Clock, b: Clock, c: Clock)
    requires |a| == |b| == |c|
    ensures Leq(a, Merge(a, b)) && Leq(b, Merge(a, b))
    ensures Leq(a, c) && Leq(b, c) <==> Leq(Merge(a, b), c)
  {
    if Leq(Merge(a, b), c) {
      forall i | 0 <= i < |a| ensures a[i] <= c[i] && b[i] <= c[i] {
        assert Merge(a, b)[i] <= c[i];
      }
    }
  }
}
