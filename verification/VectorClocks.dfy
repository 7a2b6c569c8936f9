/** VectorClock: the array that is updated in place, proved against clocks as values. */
module VectorClocks {
  import opened Clocks

  class VectorClock {
    const vc: array<nat>

    constructor (n: nat)
      ensures fresh(vc) && vc[..] == Zero(n)
    {
      vc := new nat[n](_ => 0);
    }

    /** A value beyond the last index is a caller error, as in the array of the code. */
    method Assign(i: nat, clk: nat)
      requires i < vc.Length
      modifies vc
      ensures vc[..] == old(vc[..])[i := clk]
    {
      vc[i] := clk;
    }

    method MergeWith(other: VectorClock)
      requires other.vc.Length == vc.Length
      modifies vc
      ensures vc[..] == Merge(old(vc[..]), old(other.vc[..]))
    {
      var i := 0;
      while i < vc.Length
        invariant i <= vc.Length
        invariant forall j: nat | j < i :: vc[j] == Max(old(vc[j]), old(other.vc[j]))
        invariant forall j: nat | i <= j < vc.Length :: vc[j] == old(vc[j])
        invariant other != this && other.vc != vc ==> other.vc[..] == old(other.vc[..])
      {
        vc[i] := if vc[i] > other.vc[i] then vc[i] else other.vc[i];
        i := i + 1;
      }
    }

    /** operator<=: false as soon as one component is larger. */
    method IsLeq(other: VectorClock) returns (b: bool)
      requires other.vc.Length == vc.Length
      ensures b <==> Leq(vc[..], other.vc[..])
    {
      var i := 0;
      while i < vc.Length
        invariant i <= vc.Length && forall j: nat | j < i :: vc[j] <= other.vc[j]
      {
        if vc[i] > other.vc[i] {
          assert vc[..][i] > other.vc[..][i];
          return false;
        }
        i := i + 1;
      }
      return true;
    }

    /** operator<: the strict part of the order. */
    method IsLess(other: VectorClock) returns (b: bool)
      requires other.vc.Length == vc.Length
      ensures b <==> Leq(vc[..], other.vc[..]) && vc[..] != other.vc[..]
    {
      b := false;
      var i := 0;
      while i < vc.Length
        invariant i <= vc.Length && forall j: nat | j < i :: vc[j] <= other.vc[j]
        invariant b <==> exists j: nat | j < i :: vc[j] < other.vc[j]
      {
        if vc[i] > other.vc[i] {
          assert vc[..][i] > other.vc[..][i];
          return false;
        }
        if vc[i] < other.vc[i] {
          b := true;
        }
        i := i + 1;
      }
      if b {
        var j: nat :| j < i && vc[j] < other.vc[j];
        assert vc[..][j] != other.vc[..][j];
      }
    }
  }
}
