/** Sector numbers as 32-bit words, read from the most significant bit downwards
    the way the radix tree reads them. */
module Bits {
  const RADIX_DEPTH: nat := 32

  datatype Sector = Sector(bits: bv32)

  /** The reserved sector number: a page whose metadata carries it holds no sector. */
  const SECTOR_NONE: Sector := Sector(0xffff_ffff)

  /** The mask that selects the bit examined at a given depth. */
  function DBit(depth: nat): bv32
    requires depth < RADIX_DEPTH
  {
    (1 as bv32) << (31 - depth)
  }

  predicate Bit(s: Sector, depth: nat)
    requires depth < RADIX_DEPTH
  {
    s.bits & DBit(depth) != 0
  }

  /** The test made at one level of a lookup. */
  predicate Differ(a: Sector, b: Sector, depth: nat)
    requires depth < RADIX_DEPTH
  {
    (a.bits ^ b.bits) & DBit(depth) != 0
  }

  /** `s` with the bit at `depth` inverted: the prefix of the sibling subtree. */
  function Flip(s: Sector, depth: nat): Sector
    requires depth < RADIX_DEPTH
  {
    Sector(s.bits ^ DBit(depth))
  }

  /** `a` and `b` share their first `n` bits. */
  ghost predicate Agree(a: Sector, b: Sector, n: nat)
    requires n <= RADIX_DEPTH
  {
    forall i: nat :: i < n ==> Bit(a, i) == Bit(b, i)
  }

  lemma DBitIsOneBit(d: nat)
    requires d < RADIX_DEPTH
    ensures DBit(d) & (DBit(d) - 1) == 0 && DBit(d) != 0
  {}

  lemma NextDBit(d: nat)
    requires d < 31
    ensures DBit(d + 1) < DBit(d)
  {}

  lemma {:induction false} DBitDecreases(d: nat, e: nat)
    requires d < e < RADIX_DEPTH
    ensures DBit(e) < DBit(d)
  {
    NextDBit(e - 1);
    if d < e - 1 {
      DBitDecreases(d, e - 1);
    }
  }

  lemma MaskXor(a: bv32, b: bv32, m: bv32)
    requires m & (m - 1) == 0
    ensures ((a ^ b) & m != 0) <==> ((a & m != 0) != (b & m != 0))
  {}

  lemma MasksDisjoint(m: bv32, n: bv32)
    requires m & (m - 1) == 0 && n & (n - 1) == 0 && m != n
    ensures m & n == 0
  {}

  lemma DifferIsBit(a: Sector, b: Sector, d: nat)
    requires d < RADIX_DEPTH
    ensures Differ(a, b, d) <==> Bit(a, d) != Bit(b, d)
  {
    DBitIsOneBit(d);
    MaskXor(a.bits, b.bits, DBit(d));
  }

  lemma FlipBits(s: Sector, d: nat, e: nat)
    requires d < RADIX_DEPTH && e < RADIX_DEPTH
    ensures Bit(Flip(s, d), e) == (if d == e then !Bit(s, e) else Bit(s, e))
  {
    DBitIsOneBit(d);
    DBitIsOneBit(e);
    if d < e {
      DBitDecreases(d, e);
      FlipOther(s.bits, DBit(d), DBit(e));
    } else if e < d {
      DBitDecreases(e, d);
      FlipOther(s.bits, DBit(d), DBit(e));
    } else {
      FlipSame(s.bits, DBit(d));
    }
  }

  lemma FlipOther(s: bv32, m: bv32, n: bv32)
    requires m & (m - 1) == 0 && n & (n - 1) == 0 && m != n
    ensures ((s ^ m) & n != 0) <==> (s & n != 0)
  {
    MasksDisjoint(m, n);
    MaskXor(s, m, n);
  }

  lemma FlipSame(s: bv32, m: bv32)
    requires m & (m - 1) == 0 && m != 0
    ensures ((s ^ m) & m != 0) <==> !(s & m != 0)
  {
    MaskXor(s, m, m);
  }

  lemma FlipAgrees(s: Sector, d: nat)
    requires d < RADIX_DEPTH
    ensures Agree(Flip(s, d), s, d)
    ensures Bit(Flip(s, d), d) != Bit(s, d)
  {
    forall i: nat | i <= d
      ensures Bit(Flip(s, d), i) == (if d == i then !Bit(s, i) else Bit(s, i))
    {
      FlipBits(s, d, i);
    }
  }

  lemma ZeroHigh(x: bv32)
    requires forall i: nat :: i < RADIX_DEPTH ==> x & DBit(i) == 0
    ensures x & 0xffff_0000 == 0
  {
    assert x & 0x80000000 == 0 by { assert x & DBit(0) == 0; }
    assert x & 0x40000000 == 0 by { assert x & DBit(1) == 0; }
    assert x & 0x20000000 == 0 by { assert x & DBit(2) == 0; }
    assert x & 0x10000000 == 0 by { assert x & DBit(3) == 0; }
    assert x & 0x08000000 == 0 by { assert x & DBit(4) == 0; }
    assert x & 0x04000000 == 0 by { assert x & DBit(5) == 0; }
    assert x & 0x02000000 == 0 by { assert x & DBit(6) == 0; }
    assert x & 0x01000000 == 0 by { assert x & DBit(7) == 0; }
    assert x & 0x00800000 == 0 by { assert x & DBit(8) == 0; }
    assert x & 0x00400000 == 0 by { assert x & DBit(9) == 0; }
    assert x & 0x00200000 == 0 by { assert x & DBit(10) == 0; }
    assert x & 0x00100000 == 0 by { assert x & DBit(11) == 0; }
    assert x & 0x00080000 == 0 by { assert x & DBit(12) == 0; }
    assert x & 0x00040000 == 0 by { assert x & DBit(13) == 0; }
    assert x & 0x00020000 == 0 by { assert x & DBit(14) == 0; }
    assert x & 0x00010000 == 0 by { assert x & DBit(15) == 0; }
  }

  lemma ZeroLow(x: bv32)
    requires forall i: nat :: i < RADIX_DEPTH ==> x & DBit(i) == 0
    ensures x & 0x0000_ffff == 0
  {
    assert x & 0x00008000 == 0 by { assert x & DBit(16) == 0; }
    assert x & 0x00004000 == 0 by { assert x & DBit(17) == 0; }
    assert x & 0x00002000 == 0 by { assert x & DBit(18) == 0; }
    assert x & 0x00001000 == 0 by { assert x & DBit(19) == 0; }
    assert x & 0x00000800 == 0 by { assert x & DBit(20) == 0; }
    assert x & 0x00000400 == 0 by { assert x & DBit(21) == 0; }
    assert x & 0x00000200 == 0 by { assert x & DBit(22) == 0; }
    assert x & 0x00000100 == 0 by { assert x & DBit(23) == 0; }
    assert x & 0x00000080 == 0 by { assert x & DBit(24) == 0; }
    assert x & 0x00000040 == 0 by { assert x & DBit(25) == 0; }
    assert x & 0x00000020 == 0 by { assert x & DBit(26) == 0; }
    assert x & 0x00000010 == 0 by { assert x & DBit(27) == 0; }
    assert x & 0x00000008 == 0 by { assert x & DBit(28) == 0; }
    assert x & 0x00000004 == 0 by { assert x & DBit(29) == 0; }
    assert x & 0x00000002 == 0 by { assert x & DBit(30) == 0; }
    assert x & 0x00000001 == 0 by { assert x & DBit(31) == 0; }
  }

  lemma ZeroBits(x: bv32)
    requires forall i: nat :: i < RADIX_DEPTH ==> x & DBit(i) == 0
    ensures x == 0
  {
    ZeroHigh(x);
    ZeroLow(x);
  }

  lemma SameBit(a: Sector, b: Sector, i: nat)
    requires i < RADIX_DEPTH && Bit(a, i) == Bit(b, i)
    ensures Xor(a, b) & DBit(i) == 0
  {
    DifferIsBit(a, b, i);
  }

  function Xor(a: Sector, b: Sector): bv32 {
    a.bits ^ b.bits
  }

  /** Two sectors that share all 32 bits are the same sector. */
  lemma AgreeAll(a: Sector, b: Sector)
    requires Agree(a, b, RADIX_DEPTH)
    ensures a == b
  {
    hide DBit, Bit, Xor;
    forall i: nat | i < RADIX_DEPTH
      ensures Xor(a, b) & DBit(i) == 0
    {
      SameBit(a, b, i);
    }
    ZeroBits(Xor(a, b));
    XorZero(a, b);
  }

  lemma XorZero(a: Sector, b: Sector)
    requires Xor(a, b) == 0
    ensures a == b
  {}
}
