/**
 The broadcast log of one node as every other node sees it: an unbounded sequence of slots.
 A producer reserves the next slot and later commits it; slots are never changed after that.
 The Ring module shows that the bounded ring with buffer reclamation behaves like this.
 */
module Broadcast {

  /** A published log: what it holds, and whether it ends a release. */
  datatype Log<T> = Log(items: T, rel: bool)

  datatype Slot<T> = Reserved | Committed(log: Log<T>)

  /** The release index that a consumer standing at position h has reached on slots r. */
  ghost function LastRelease<T>(r: seq<Slot<T>>, h: nat): (clk: nat)
    requires h <= |r|
    ensures clk <= h
  {
    if h == 0 then 0
    else if r[h - 1].Committed? && r[h - 1].log.rel then h
    else LastRelease(r, h - 1)
  }

  /** An index is a release index when it is 0 or names a committed release log. */
  ghost predicate IsReleaseIndex<T>(r: seq<Slot<T>>, clk: nat) {
    clk == 0 || (clk <= |r| && r[clk - 1].Committed? && r[clk - 1].log.rel)
  }

  /** LastRelease is exactly the largest release index that is not beyond h. */
  lemma {:induction false} LastReleaseIsLargest<T>(r: seq<Slot<T>>, h: nat)
    requires h <= |r|
    ensures IsReleaseIndex(r, LastRelease(r, h))
    ensures forall c: nat | c <= h && IsReleaseIndex(r, c) :: c <= LastRelease(r, h)
  {
    if h > 0 && !(r[h - 1].Committed? && r[h - 1].log.rel) {
      LastReleaseIsLargest(r, h - 1);
    }
  }

  /** Slots at or after h do not matter to LastRelease. */
  lemma {:induction false} LastReleaseStable<T>(r: seq<Slot<T>>, r': seq<Slot<T>>, h: nat)
    requires h <= |r| && h <= |r'|
    requires forall k | 0 <= k < h :: r[k] == r'[k]
    ensures LastRelease(r, h) == LastRelease(r', h)
  {
    if h > 0 {
      LastReleaseStable(r, r', h - 1);
    }
  }

  lemma {:induction false} LastReleaseMonotone<T>(r: seq<Slot<T>>, h: nat, h': nat)
    requires h <= h' <= |r|
    ensures LastRelease(r, h) <= LastRelease(r, h')
    decreases h'
  {
    if h < h' {
      LastReleaseMonotone(r, h, h' - 1);
    }
  }
}
