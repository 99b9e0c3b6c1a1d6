/**
 * The bit-level vocabulary of the engine: a bitboard is a 64-bit unsigned
 * word with one bit per square, bit 0 being the least significant. This
 * module gives the reference meaning of "bit k is set" and "the bits below k
 * are clear", against which the De Bruijn bit scan is proved.
 */
module Bitboard {

  /** The source's `U64` (`unsigned long long`); `-`, `*` and `>>` wrap as in C++. */
  type U64 = bv64

  /** The word with every bit set. */
  const AllOnes: U64 := 0xffff_ffff_ffff_ffff

  // ---------------------------------------------------------------------
  // Single bits and low masks. Bit positions are 8-bit values 0..64.
  // ---------------------------------------------------------------------

  /** The word 2^k, i.e. `1 << k`; for k = 64 the shift leaves 0. */
  function Pow2(k: bv8): (p: U64)
    requires k <= 64
  {
    1 << k
  }

  /** The mask of bits 0..k-1 (no bits for k = 0, every bit for k = 64). */
  function LowMask(k: bv8): (m: U64)
    requires k <= 64
  {
    Pow2(k) - 1
  }

  /** Bit k of bb is one: the naive test `bb & (1 << k) != 0`. */
  predicate Bit(bb: U64, k: bv8)
    requires k < 64
  {
    bb & Pow2(k) != 0
  }

  /** Every bit of bb below position k is zero. */
  ghost predicate NoBitBelow(bb: U64, k: bv8)
    requires k <= 64
  {
    forall j: bv8 :: j < k ==> !Bit(bb, j)
  }

  /** 2^k is a single bit: nonzero, and clear of every bit below it. */
  lemma Pow2Single(k: bv8)
    requires k < 64
    ensures Pow2(k) != 0 && Pow2(k) & LowMask(k) == 0
  {
  }

  /** 2^(k+1) is 2^k shifted left once. */
  lemma Pow2Step(k: bv8)
    requires k < 63
    ensures Pow2(k + 1) == Pow2(k) << 1
  {
  }

  /** For a single bit p, the bits up to and including p are p joined to the bits below it. */
  lemma SingleBitMask(p: U64)
    requires p != 0 && p & (p - 1) == 0
    ensures (p << 1) - 1 == (p - 1) | p
  {
  }

  /** The mask of bits 0..k is bit k joined to the mask of bits 0..k-1. */
  lemma LowMaskStep(k: bv8)
    requires k < 64
    ensures LowMask(k + 1) == LowMask(k) | Pow2(k)
  {
    Pow2Single(k);
    if k < 63 {
      Pow2Step(k);
      SingleBitMask(Pow2(k));
    } else {
      assert LowMask(64) == AllOnes;
    }
  }

  /** `&` distributes over `|`. */
  lemma AndOverOr(bb: U64, m: U64, p: U64)
    ensures bb & (m | p) == (bb & m) | (bb & p)
  {
  }

  /** A union of words is zero exactly when each of them is. */
  lemma OrZero(x: U64, y: U64)
    ensures x | y == 0 <==> x == 0 && y == 0
  {
  }

  /** `bb` misses the union u of m and p exactly when it misses m and misses p. */
  lemma AndUnion(bb: U64, m: U64, p: U64)
    ensures bb & (m | p) == 0 <==> bb & m == 0 && bb & p == 0
  {
    AndOverOr(bb, m, p);
    OrZero(bb & m, bb & p);
  }

  /** bb misses bits 0..i exactly when it misses bits 0..i-1 and bit i is zero. */
  lemma LowMaskBitStep(bb: U64, i: bv8)
    requires i < 64
    ensures bb & LowMask(i + 1) == 0 <==> bb & LowMask(i) == 0 && !Bit(bb, i)
  {
    LowMaskStep(i);
    AndUnion(bb, LowMask(i), Pow2(i));
  }

  /** Bit j lies inside the mask of the bits below k when j < k. */
  lemma MaskCovers(j: bv8, k: bv8)
    requires j < k <= 64
    ensures Pow2(j) & LowMask(k) == Pow2(j)
  {
  }

  /** A word clear of the mask m is clear of every part p of m. */
  lemma AndWithin(bb: U64, p: U64, m: U64)
    requires p & m == p && bb & m == 0
    ensures bb & p == 0
  {
  }

  /** A word clear of the mask of bits 0..k-1 has none of those bits set. */
  lemma MaskClearBits(bb: U64, k: bv8)
    requires k <= 64 && bb & LowMask(k) == 0
    ensures NoBitBelow(bb, k)
  {
    forall j: bv8 | j < k
      ensures !Bit(bb, j)
    {
      MaskCovers(j, k);
      AndWithin(bb, Pow2(j), LowMask(k));
    }
  }
}
