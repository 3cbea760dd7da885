// Bits of a byte: masks, writing one bit, the highest set bit.

module Bits {

  type Byte = bv8

  /** `mask = 1; mask <<= bit;` */
  function Mask(bit: nat): Byte
    requires bit < 8
  {
    if bit == 0 then 1 else Mask(bit - 1) << 1
  }

  predicate BitOn(b: Byte, bit: nat)
    requires bit < 8
  {
    b & Mask(bit) != 0
  }

  /** `state |= mask` or `state &= ~mask`. */
  function SetBit(b: Byte, bit: nat, on: bool): Byte
    requires bit < 8
  {
    if on then b | Mask(bit) else b & !Mask(bit)
  }

  lemma Masks()
    ensures Mask(0) == 1 && Mask(1) == 2 && Mask(2) == 4 && Mask(3) == 8
    ensures Mask(4) == 16 && Mask(5) == 32 && Mask(6) == 64 && Mask(7) == 128
  {
    assert Mask(1) == 2;
    assert Mask(2) == 4;
    assert Mask(3) == 8;
    assert Mask(4) == 16;
    assert Mask(5) == 32;
    assert Mask(6) == 64;
  }

  /** A mask is one of eight values; different bits have disjoint masks. */
  lemma MaskCases(bit: nat)
    requires bit < 8
    ensures Mask(bit) == match bit case 0 => 1 case 1 => 2 case 2 => 4 case 3 => 8
                                   case 4 => 16 case 5 => 32 case 6 => 64 case _ => 128
  {
    Masks();
  }

  lemma DisjointMasks(i: nat, j: nat)
    requires i < 8 && j < 8 && i != j
    ensures Mask(i) & Mask(j) == 0 && Mask(i) != 0
  {
    MaskCases(i);
    MaskCases(j);
  }

  lemma BitLaws(b: Byte, m: Byte, n: Byte)
    requires m & n == 0
    ensures (b | m) & n == b & n && (b & !m) & n == b & n
    ensures (b | m) & m == m && (b & !m) & m == 0
  {
  }

  /** Writing one bit is read back, and no other bit moves. */
  lemma SetBitReads(b: Byte, bit: nat, on: bool, other: nat)
    requires bit < 8 && other < 8
    ensures BitOn(SetBit(b, bit, on), other) == if other == bit then on else BitOn(b, other)
  {
    if other == bit {
      MaskCases(bit);
      BitLaws(b, Mask(bit), 0);
    } else {
      DisjointMasks(bit, other);
      BitLaws(b, Mask(bit), Mask(other));
    }
  }

  /** A byte is zero exactly when none of its bits is on. */
  lemma ZeroByte(b: Byte)
    ensures b == 0 <==> forall i: nat :: i < 8 ==> !BitOn(b, i)
  {
    Masks();
    if forall i: nat :: i < 8 ==> !BitOn(b, i) {
      assert !BitOn(b, 0) && !BitOn(b, 1) && !BitOn(b, 2) && !BitOn(b, 3);
      assert !BitOn(b, 4) && !BitOn(b, 5) && !BitOn(b, 6) && !BitOn(b, 7);
    }
  }

  /** Every bit of the mask is on in the byte. */
  lemma CoversMask(b: Byte, mask: Byte)
    ensures mask & b == mask <==> forall i: nat :: i < 8 && BitOn(mask, i) ==> BitOn(b, i)
  {
    ZeroByte(mask & !b);
    forall i: nat | i < 8 ensures BitOn(mask & !b, i) <==> BitOn(mask, i) && !BitOn(b, i) {
      MaskCases(i);
      SingleBit(mask, b, Mask(i));
    }
    MissingBits(mask, b);
  }

  lemma MissingBits(mask: Byte, b: Byte)
    ensures mask & b == mask <==> mask & !b == 0
  {
  }

  lemma SingleBit(mask: Byte, b: Byte, m: Byte)
    requires m == 1 || m == 2 || m == 4 || m == 8 || m == 16 || m == 32 || m == 64 || m == 128
    ensures (mask & !b) & m != 0 <==> mask & m != 0 && b & m == 0
  {
  }

  /** The number of the highest set bit, and 0 for an empty mask. */
  function TopBit(mask: Byte): nat
    decreases mask
  {
    if mask <= 1 then 0
    else
      ShiftSmaller(mask);
      1 + TopBit(mask >> 1)
  }

  lemma ShiftSmaller(mask: Byte)
    requires mask > 1
    ensures mask >> 1 < mask && mask >> 1 != 0
  {
  }

  /** The top bit of a byte below bit n is set, and no bit above it is. */
  predicate IsTopBit(mask: Byte, top: nat, n: nat) {
    top < n <= 8 && BitOn(mask, top) && forall b: nat :: top < b < 8 ==> !BitOn(mask, b)
  }

  lemma {:induction false} TopBitIsTop(mask: Byte, n: nat)
    requires mask != 0 && n <= 8 && (n < 8 ==> mask < Mask(n))
    ensures IsTopBit(mask, TopBit(mask), n)
    decreases n
  {
    if n < 8 {
      MaskCases(n);
    }
    if mask > 1 {
      MaskCases(n - 1);
      HalfBound(mask, Mask(n - 1));
      TopBitIsTop(mask >> 1, n - 1);
      ShiftedTop(mask, TopBit(mask >> 1), n - 1);
    } else {
      OneBit();
    }
  }

  lemma OneBit()
    ensures IsTopBit(1, 0, 1)
  {
    forall b: nat | 0 < b < 8 ensures !BitOn(1, b) {
      DisjointMasks(0, b);
    }
    Masks();
  }

  lemma ShiftedTop(mask: Byte, top: nat, n: nat)
    requires IsTopBit(mask >> 1, top, n) && n < 8
    ensures IsTopBit(mask, top + 1, n + 1)
  {
    BitShifts(mask, top);
    forall b: nat | top + 1 < b < 8 ensures !BitOn(mask, b) {
      BitShifts(mask, b - 1);
    }
  }

  lemma BitShifts(mask: Byte, b: nat)
    requires b < 7
    ensures BitOn(mask, b + 1) <==> BitOn(mask >> 1, b)
  {
    MaskCases(b);
    AndShifts(mask, Mask(b));
  }

  lemma AndShifts(a: Byte, m: Byte)
    requires m < 0x80
    ensures a & (m << 1) != 0 <==> (a >> 1) & m != 0
  {
  }

  lemma HalfBound(a: Byte, m: Byte)
    requires 0 < m <= 0x80 && (m < 0x80 ==> a < m << 1)
    ensures a >> 1 < m
  {
  }

  lemma TopBitOfMask(bit: nat)
    requires bit < 8
    ensures TopBit(Mask(bit)) == bit
  {
    Masks();
    assert TopBit(1) == 0;
    assert TopBit(2) == 1;
    assert TopBit(4) == 2;
    assert TopBit(8) == 3;
    assert TopBit(16) == 4;
    assert TopBit(32) == 5;
    assert TopBit(64) == 6;
    assert TopBit(128) == 7;
  }

  /** mask2int: shift right until nothing is left, counting. */
  method Mask2Int(mask: Byte) returns (i: int)
    ensures i == TopBit(mask)
    ensures mask != 0 ==> 0 <= i < 8 && BitOn(mask, i) && forall b: nat :: i < b < 8 ==> !BitOn(mask, b)
  {
    var m := mask;
    i := 0;
    while true
      invariant i >= 0
      invariant i == 0 ==> m == mask
      invariant m != 0 ==> i + TopBit(m) == TopBit(mask)
      invariant m == 0 ==> i == 0 && TopBit(mask) == 0
      decreases m
    {
      ghost var before := m;
      m := m >> 1;
      i := i + 1;
      if m == 0 {
        HalfZero(before);
        break;
      }
      HalfLess(before);
    }
    i := i - 1;
    if mask != 0 {
      TopBitIsTop(mask, 8);
    }
  }

  lemma HalfZero(m: Byte)
    requires m >> 1 == 0
    ensures m <= 1
  {
  }

  lemma HalfLess(m: Byte)
    requires m >> 1 != 0
    ensures m > 1 && m >> 1 < m
  {
  }
}
