/** Machine words as numbers: a left shift that loses no bit multiplies by a power of two. */
module Words {

  function Nat(x: bv64): nat {
    x as nat
  }

  /** 2 to the power k. */
  function Pow2(k: bv64): nat
    decreases k
  {
    if k == 0 then 1 else 2 * Pow2(k - 1)
  }

  lemma Powers()
    ensures Pow2(6) == 64 && Pow2(7) == 128 && Pow2(8) == 256 && Pow2(9) == 512 && Pow2(10) == 1024
    ensures Pow2(11) == 2048 && Pow2(12) == 4096 && Pow2(13) == 8192 && Pow2(14) == 16384 && Pow2(15) == 32768
  {
    assert Pow2(3) == 8;
    assert Pow2(6) == 8 * Pow2(3);
    assert Pow2(9) == 8 * Pow2(6);
    assert Pow2(12) == 8 * Pow2(9);
  }

  // One lemma for each distance: the solver turns words into numbers only when the distance is a literal.

  lemma Times64(x: bv64, k: bv64)
    requires x <= 0x1_FFFF_FFFF_FFFF && k == 6
    ensures Nat(x << k) == 64 * Nat(x)
  {
    assert Nat(x << 6) == 64 * Nat(x);
  }

  lemma Times128(x: bv64, k: bv64)
    requires x <= 0x1_FFFF_FFFF_FFFF && k == 7
    ensures Nat(x << k) == 128 * Nat(x)
  {
    assert Nat(x << 7) == 128 * Nat(x);
  }

  lemma Times256(x: bv64, k: bv64)
    requires x <= 0x1_FFFF_FFFF_FFFF && k == 8
    ensures Nat(x << k) == 256 * Nat(x)
  {
    assert Nat(x << 8) == 256 * Nat(x);
  }

  lemma Times512(x: bv64, k: bv64)
    requires x <= 0x1_FFFF_FFFF_FFFF && k == 9
    ensures Nat(x << k) == 512 * Nat(x)
  {
    assert Nat(x << 9) == 512 * Nat(x);
  }

  lemma Times1024(x: bv64, k: bv64)
    requires x <= 0x1_FFFF_FFFF_FFFF && k == 10
    ensures Nat(x << k) == 1024 * Nat(x)
  {
    assert Nat(x << 10) == 1024 * Nat(x);
  }

  lemma Times2048(x: bv64, k: bv64)
    requires x <= 0x1_FFFF_FFFF_FFFF && k == 11
    ensures Nat(x << k) == 2048 * Nat(x)
  {
    assert Nat(x << 11) == 2048 * Nat(x);
  }

  lemma Times4096(x: bv64, k: bv64)
    requires x <= 0x1_FFFF_FFFF_FFFF && k == 12
    ensures Nat(x << k) == 4096 * Nat(x)
  {
    assert Nat(x << 12) == 4096 * Nat(x);
  }

  lemma Times8192(x: bv64, k: bv64)
    requires x <= 0x1_FFFF_FFFF_FFFF && k == 13
    ensures Nat(x << k) == 8192 * Nat(x)
  {
    assert Nat(x << 13) == 8192 * Nat(x);
  }

  lemma Times16384(x: bv64, k: bv64)
    requires x <= 0x1_FFFF_FFFF_FFFF && k == 14
    ensures Nat(x << k) == 16384 * Nat(x)
  {
    assert Nat(x << 14) == 16384 * Nat(x);
  }

  lemma Times32768(x: bv64, k: bv64)
    requires x <= 0x1_FFFF_FFFF_FFFF && k == 15
    ensures Nat(x << k) == 32768 * Nat(x)
  {
    assert Nat(x << 15) == 32768 * Nat(x);
  }

  lemma Shifted(x: bv64, k: bv64)
    requires x <= 0x1_FFFF_FFFF_FFFF && 6 <= k <= 15
    ensures Nat(x << k) == Pow2(k) * Nat(x)
  {
    Powers();
    if k == 6 { Times64(x, k); }
    else if k == 7 { Times128(x, k); }
    else if k == 8 { Times256(x, k); }
    else if k == 9 { Times512(x, k); }
    else if k == 10 { Times1024(x, k); }
    else if k == 11 { Times2048(x, k); }
    else if k == 12 { Times4096(x, k); }
    else if k == 13 { Times8192(x, k); }
    else if k == 14 { Times16384(x, k); }
    else { Times32768(x, k); }
  }
}
