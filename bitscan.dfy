/**
 * Forward bit scan: the index of the least significant one bit of a
 * nonempty bitboard, by De Bruijn multiplication (Kim Walisch's variant).
 * `bb ^ (bb - 1)` is the mask of the bits up to and including the lowest
 * one bit; multiplying it by the De Bruijn constant with 64-bit wrap-around
 * and keeping the top six bits gives a distinct hash for each of the 64
 * possible masks, which the table `bsfIndex64` maps back to the index.
 */
module BitScan {
  import opened Bitboard

  /** The De Bruijn multiplier `debruijn64`. */
  const DeBruijn64: U64 := 0x03f7_9d71_b4cb_0a89

  /** The table `bsfIndex64`, mapping each hash to the index of the lowest one bit. */
  const BsfIndex64: seq<bv8> :=
    [ 0, 47,  1, 56, 48, 27,  2, 60] +
    [57, 49, 41, 37, 28, 16,  3, 61] +
    [54, 58, 35, 52, 50, 42, 21, 44] +
    [38, 32, 29, 23, 17, 11,  4, 62] +
    [46, 55, 26, 59, 40, 36, 15, 53] +
    [34, 51, 20, 43, 31, 22, 10, 45] +
    [25, 39, 14, 33, 19, 30,  9, 24] +
    [13, 18,  8, 12,  7,  6,  5, 63]

  // ---------------------------------------------------------------------
  // The fast scan
  // ---------------------------------------------------------------------

  /** The top six bits of a word, as a table index. */
  function TopSix(x: U64): (h: int)
    ensures 0 <= h < 64
  {
    (x >> 58) as bv8 as int
  }

  /** The table index `(m * debruijn64) >> 58`: the top six bits of the wrapped product. */
  function DeBruijnHash(m: U64): (h: int)
    ensures 0 <= h < 64
  {
    TopSix(m * DeBruijn64)
  }

  /**
   * `bitScanForward`: hash the mask `bb ^ (bb - 1)` and look the hash up.
   * The source's `assert (bb != 0)` is the precondition.
   */
  function BitScanForward(bb: U64): (k: int)
    requires bb != 0
    ensures 0 <= k < 64
  {
    ScanIndex(bb) as int
  }

  /** The table entry `bitScanForward` returns, as a bit position. */
  function ScanIndex(bb: U64): (k: bv8)
    requires bb != 0
    ensures k < 64
  {
    var h := DeBruijnHash(bb ^ (bb - 1));
    TableInverse(h);
    BsfIndex64[h]
  }

  // ---------------------------------------------------------------------
  // The reference scan
  // ---------------------------------------------------------------------

  /** If bits 0..i-1 of bb are clear and bit i is clear too, then bits 0..i are clear. */
  lemma NextClear(bb: U64, i: bv8)
    requires i < 64 && bb & LowMask(i) == 0 && !Bit(bb, i)
    ensures bb & LowMask(i + 1) == 0
  {
    LowMaskBitStep(bb, i);
  }

  /** A nonempty word does not have all 64 bits clear, so the search stops before position 64. */
  lemma NotAllClear(bb: U64, i: bv8)
    requires bb != 0 && i < 64 && bb & LowMask(i + 1) == 0
    ensures i < 63
  {
    assert LowMask(64) == AllOnes;
  }

  /** k is the lowest one bit of bb: bit k is set and the mask of the bits below k misses bb. */
  ghost predicate LowestAt(bb: U64, k: bv8)
  {
    k < 64 && Bit(bb, k) && bb & LowMask(k) == 0
  }

  /** If bb is nonempty and clear below i, its lowest one bit is at i or above, found by testing each bit in turn. */
  lemma {:induction false} LowestExists(bb: U64, i: bv8)
    requires bb != 0 && i < 64 && bb & LowMask(i) == 0
    ensures exists k: bv8 :: i <= k && LowestAt(bb, k)
    decreases 64 - i
  {
    if Bit(bb, i) {
      assert LowestAt(bb, i);
    } else {
      NextClear(bb, i);
      NotAllClear(bb, i);
      LowestExists(bb, i + 1);
    }
  }

  /** The reference bit scan: the position of the least significant one bit. */
  ghost function LowestSetBit(bb: U64): (k: bv8)
    requires bb != 0
    ensures k < 64 && Bit(bb, k) && NoBitBelow(bb, k)
    ensures bb & LowMask(k) == 0
  {
    LowestExists(bb, 0);
    var k :| LowestAt(bb, k);
    MaskClearBits(bb, k);
    k
  }

  /** The lowest one bit is unique: no two positions both qualify. */
  lemma LowestUnique(bb: U64, j: bv8, k: bv8)
    requires j < 64 && Bit(bb, j) && NoBitBelow(bb, j)
    requires k < 64 && Bit(bb, k) && NoBitBelow(bb, k)
    ensures j == k
  {
  }

  // ---------------------------------------------------------------------
  // Why the trick works
  // ---------------------------------------------------------------------

  /** Subtracting one from a word whose lowest one bit is the single bit p flips p and every bit below it. */
  lemma IsolateBit(bb: U64, p: U64)
    requires p != 0 && p & (p - 1) == 0
    requires bb & p != 0 && bb & (p - 1) == 0
    ensures bb ^ (bb - 1) == (p - 1) | p
  {
  }

  /** `bb ^ (bb - 1)` is the mask of bits 0..k when k is the lowest one bit of bb. */
  lemma IsolateLowest(bb: U64, k: bv8)
    requires k < 64 && Bit(bb, k) && bb & LowMask(k) == 0
    ensures bb ^ (bb - 1) == LowMask(k + 1)
  {
    Pow2Single(k);
    LowMaskStep(k);
    IsolateBit(bb, Pow2(k));
  }

  /** The hash of one mask, computed from the wrapped product. */
  lemma HashOf(m: U64, h: bv8)
    requires (m * DeBruijn64) >> 58 == h as U64
    ensures DeBruijnHash(m) == h as int
  {
  }

  // ---------------------------------------------------------------------
  // The 64 masks `bb ^ (bb - 1)` can take, one per lowest bit k, with
  // their hashes and the table entries at those hashes
  // ---------------------------------------------------------------------

  /** The mask of bits 0..0 hashes to 0, and entry 0 of the table is 0. */
  lemma Case0()
    ensures DeBruijnHash(0x0000_0000_0000_0001) == 0 && BsfIndex64[0] == 0
  {
    HashOf(0x0000_0000_0000_0001, 0);
  }

  /** The mask of bits 0..1 hashes to 2, and entry 2 of the table is 1. */
  lemma Case1()
    ensures DeBruijnHash(0x0000_0000_0000_0003) == 2 && BsfIndex64[2] == 1
  {
    HashOf(0x0000_0000_0000_0003, 2);
  }

  /** The mask of bits 0..2 hashes to 6, and entry 6 of the table is 2. */
  lemma Case2()
    ensures DeBruijnHash(0x0000_0000_0000_0007) == 6 && BsfIndex64[6] == 2
  {
    HashOf(0x0000_0000_0000_0007, 6);
  }

  /** The mask of bits 0..3 hashes to 14, and entry 14 of the table is 3. */
  lemma Case3()
    ensures DeBruijnHash(0x0000_0000_0000_000f) == 14 && BsfIndex64[14] == 3
  {
    HashOf(0x0000_0000_0000_000f, 14);
  }

  /** The mask of bits 0..4 hashes to 30, and entry 30 of the table is 4. */
  lemma Case4()
    ensures DeBruijnHash(0x0000_0000_0000_001f) == 30 && BsfIndex64[30] == 4
  {
    HashOf(0x0000_0000_0000_001f, 30);
  }

  /** The mask of bits 0..5 hashes to 62, and entry 62 of the table is 5. */
  lemma Case5()
    ensures DeBruijnHash(0x0000_0000_0000_003f) == 62 && BsfIndex64[62] == 5
  {
    HashOf(0x0000_0000_0000_003f, 62);
  }

  /** The mask of bits 0..6 hashes to 61, and entry 61 of the table is 6. */
  lemma Case6()
    ensures DeBruijnHash(0x0000_0000_0000_007f) == 61 && BsfIndex64[61] == 6
  {
    HashOf(0x0000_0000_0000_007f, 61);
  }

  /** The mask of bits 0..7 hashes to 60, and entry 60 of the table is 7. */
  lemma Case7()
    ensures DeBruijnHash(0x0000_0000_0000_00ff) == 60 && BsfIndex64[60] == 7
  {
    HashOf(0x0000_0000_0000_00ff, 60);
  }

  /** The mask of bits 0..8 hashes to 58, and entry 58 of the table is 8. */
  lemma Case8()
    ensures DeBruijnHash(0x0000_0000_0000_01ff) == 58 && BsfIndex64[58] == 8
  {
    HashOf(0x0000_0000_0000_01ff, 58);
  }

  /** The mask of bits 0..9 hashes to 54, and entry 54 of the table is 9. */
  lemma Case9()
    ensures DeBruijnHash(0x0000_0000_0000_03ff) == 54 && BsfIndex64[54] == 9
  {
    HashOf(0x0000_0000_0000_03ff, 54);
  }

  /** The mask of bits 0..10 hashes to 46, and entry 46 of the table is 10. */
  lemma Case10()
    ensures DeBruijnHash(0x0000_0000_0000_07ff) == 46 && BsfIndex64[46] == 10
  {
    HashOf(0x0000_0000_0000_07ff, 46);
  }

  /** The mask of bits 0..11 hashes to 29, and entry 29 of the table is 11. */
  lemma Case11()
    ensures DeBruijnHash(0x0000_0000_0000_0fff) == 29 && BsfIndex64[29] == 11
  {
    HashOf(0x0000_0000_0000_0fff, 29);
  }

  /** The mask of bits 0..12 hashes to 59, and entry 59 of the table is 12. */
  lemma Case12()
    ensures DeBruijnHash(0x0000_0000_0000_1fff) == 59 && BsfIndex64[59] == 12
  {
    HashOf(0x0000_0000_0000_1fff, 59);
  }

  /** The mask of bits 0..13 hashes to 56, and entry 56 of the table is 13. */
  lemma Case13()
    ensures DeBruijnHash(0x0000_0000_0000_3fff) == 56 && BsfIndex64[56] == 13
  {
    HashOf(0x0000_0000_0000_3fff, 56);
  }

  /** The mask of bits 0..14 hashes to 50, and entry 50 of the table is 14. */
  lemma Case14()
    ensures DeBruijnHash(0x0000_0000_0000_7fff) == 50 && BsfIndex64[50] == 14
  {
    HashOf(0x0000_0000_0000_7fff, 50);
  }

  /** The mask of bits 0..15 hashes to 38, and entry 38 of the table is 15. */
  lemma Case15()
    ensures DeBruijnHash(0x0000_0000_0000_ffff) == 38 && BsfIndex64[38] == 15
  {
    HashOf(0x0000_0000_0000_ffff, 38);
  }

  /** The mask of bits 0..16 hashes to 13, and entry 13 of the table is 16. */
  lemma Case16()
    ensures DeBruijnHash(0x0000_0000_0001_ffff) == 13 && BsfIndex64[13] == 16
  {
    HashOf(0x0000_0000_0001_ffff, 13);
  }

  /** The mask of bits 0..17 hashes to 28, and entry 28 of the table is 17. */
  lemma Case17()
    ensures DeBruijnHash(0x0000_0000_0003_ffff) == 28 && BsfIndex64[28] == 17
  {
    HashOf(0x0000_0000_0003_ffff, 28);
  }

  /** The mask of bits 0..18 hashes to 57, and entry 57 of the table is 18. */
  lemma Case18()
    ensures DeBruijnHash(0x0000_0000_0007_ffff) == 57 && BsfIndex64[57] == 18
  {
    HashOf(0x0000_0000_0007_ffff, 57);
  }

  /** The mask of bits 0..19 hashes to 52, and entry 52 of the table is 19. */
  lemma Case19()
    ensures DeBruijnHash(0x0000_0000_000f_ffff) == 52 && BsfIndex64[52] == 19
  {
    HashOf(0x0000_0000_000f_ffff, 52);
  }

  /** The mask of bits 0..20 hashes to 42, and entry 42 of the table is 20. */
  lemma Case20()
    ensures DeBruijnHash(0x0000_0000_001f_ffff) == 42 && BsfIndex64[42] == 20
  {
    HashOf(0x0000_0000_001f_ffff, 42);
  }

  /** The mask of bits 0..21 hashes to 22, and entry 22 of the table is 21. */
  lemma Case21()
    ensures DeBruijnHash(0x0000_0000_003f_ffff) == 22 && BsfIndex64[22] == 21
  {
    HashOf(0x0000_0000_003f_ffff, 22);
  }

  /** The mask of bits 0..22 hashes to 45, and entry 45 of the table is 22. */
  lemma Case22()
    ensures DeBruijnHash(0x0000_0000_007f_ffff) == 45 && BsfIndex64[45] == 22
  {
    HashOf(0x0000_0000_007f_ffff, 45);
  }

  /** The mask of bits 0..23 hashes to 27, and entry 27 of the table is 23. */
  lemma Case23()
    ensures DeBruijnHash(0x0000_0000_00ff_ffff) == 27 && BsfIndex64[27] == 23
  {
    HashOf(0x0000_0000_00ff_ffff, 27);
  }

  /** The mask of bits 0..24 hashes to 55, and entry 55 of the table is 24. */
  lemma Case24()
    ensures DeBruijnHash(0x0000_0000_01ff_ffff) == 55 && BsfIndex64[55] == 24
  {
    HashOf(0x0000_0000_01ff_ffff, 55);
  }

  /** The mask of bits 0..25 hashes to 48, and entry 48 of the table is 25. */
  lemma Case25()
    ensures DeBruijnHash(0x0000_0000_03ff_ffff) == 48 && BsfIndex64[48] == 25
  {
    HashOf(0x0000_0000_03ff_ffff, 48);
  }

  /** The mask of bits 0..26 hashes to 34, and entry 34 of the table is 26. */
  lemma Case26()
    ensures DeBruijnHash(0x0000_0000_07ff_ffff) == 34 && BsfIndex64[34] == 26
  {
    HashOf(0x0000_0000_07ff_ffff, 34);
  }

  /** The mask of bits 0..27 hashes to 5, and entry 5 of the table is 27. */
  lemma Case27()
    ensures DeBruijnHash(0x0000_0000_0fff_ffff) == 5 && BsfIndex64[5] == 27
  {
    HashOf(0x0000_0000_0fff_ffff, 5);
  }

  /** The mask of bits 0..28 hashes to 12, and entry 12 of the table is 28. */
  lemma Case28()
    ensures DeBruijnHash(0x0000_0000_1fff_ffff) == 12 && BsfIndex64[12] == 28
  {
    HashOf(0x0000_0000_1fff_ffff, 12);
  }

  /** The mask of bits 0..29 hashes to 26, and entry 26 of the table is 29. */
  lemma Case29()
    ensures DeBruijnHash(0x0000_0000_3fff_ffff) == 26 && BsfIndex64[26] == 29
  {
    HashOf(0x0000_0000_3fff_ffff, 26);
  }

  /** The mask of bits 0..30 hashes to 53, and entry 53 of the table is 30. */
  lemma Case30()
    ensures DeBruijnHash(0x0000_0000_7fff_ffff) == 53 && BsfIndex64[53] == 30
  {
    HashOf(0x0000_0000_7fff_ffff, 53);
  }

  /** The mask of bits 0..31 hashes to 44, and entry 44 of the table is 31. */
  lemma Case31()
    ensures DeBruijnHash(0x0000_0000_ffff_ffff) == 44 && BsfIndex64[44] == 31
  {
    HashOf(0x0000_0000_ffff_ffff, 44);
  }

  /** The mask of bits 0..32 hashes to 25, and entry 25 of the table is 32. */
  lemma Case32()
    ensures DeBruijnHash(0x0000_0001_ffff_ffff) == 25 && BsfIndex64[25] == 32
  {
    HashOf(0x0000_0001_ffff_ffff, 25);
  }

  /** The mask of bits 0..33 hashes to 51, and entry 51 of the table is 33. */
  lemma Case33()
    ensures DeBruijnHash(0x0000_0003_ffff_ffff) == 51 && BsfIndex64[51] == 33
  {
    HashOf(0x0000_0003_ffff_ffff, 51);
  }

  /** The mask of bits 0..34 hashes to 40, and entry 40 of the table is 34. */
  lemma Case34()
    ensures DeBruijnHash(0x0000_0007_ffff_ffff) == 40 && BsfIndex64[40] == 34
  {
    HashOf(0x0000_0007_ffff_ffff, 40);
  }

  /** The mask of bits 0..35 hashes to 18, and entry 18 of the table is 35. */
  lemma Case35()
    ensures DeBruijnHash(0x0000_000f_ffff_ffff) == 18 && BsfIndex64[18] == 35
  {
    HashOf(0x0000_000f_ffff_ffff, 18);
  }

  /** The mask of bits 0..36 hashes to 37, and entry 37 of the table is 36. */
  lemma Case36()
    ensures DeBruijnHash(0x0000_001f_ffff_ffff) == 37 && BsfIndex64[37] == 36
  {
    HashOf(0x0000_001f_ffff_ffff, 37);
  }

  /** The mask of bits 0..37 hashes to 11, and entry 11 of the table is 37. */
  lemma Case37()
    ensures DeBruijnHash(0x0000_003f_ffff_ffff) == 11 && BsfIndex64[11] == 37
  {
    HashOf(0x0000_003f_ffff_ffff, 11);
  }

  /** The mask of bits 0..38 hashes to 24, and entry 24 of the table is 38. */
  lemma Case38()
    ensures DeBruijnHash(0x0000_007f_ffff_ffff) == 24 && BsfIndex64[24] == 38
  {
    HashOf(0x0000_007f_ffff_ffff, 24);
  }

  /** The mask of bits 0..39 hashes to 49, and entry 49 of the table is 39. */
  lemma Case39()
    ensures DeBruijnHash(0x0000_00ff_ffff_ffff) == 49 && BsfIndex64[49] == 39
  {
    HashOf(0x0000_00ff_ffff_ffff, 49);
  }

  /** The mask of bits 0..40 hashes to 36, and entry 36 of the table is 40. */
  lemma Case40()
    ensures DeBruijnHash(0x0000_01ff_ffff_ffff) == 36 && BsfIndex64[36] == 40
  {
    HashOf(0x0000_01ff_ffff_ffff, 36);
  }

  /** The mask of bits 0..41 hashes to 10, and entry 10 of the table is 41. */
  lemma Case41()
    ensures DeBruijnHash(0x0000_03ff_ffff_ffff) == 10 && BsfIndex64[10] == 41
  {
    HashOf(0x0000_03ff_ffff_ffff, 10);
  }

  /** The mask of bits 0..42 hashes to 21, and entry 21 of the table is 42. */
  lemma Case42()
    ensures DeBruijnHash(0x0000_07ff_ffff_ffff) == 21 && BsfIndex64[21] == 42
  {
    HashOf(0x0000_07ff_ffff_ffff, 21);
  }

  /** The mask of bits 0..43 hashes to 43, and entry 43 of the table is 43. */
  lemma Case43()
    ensures DeBruijnHash(0x0000_0fff_ffff_ffff) == 43 && BsfIndex64[43] == 43
  {
    HashOf(0x0000_0fff_ffff_ffff, 43);
  }

  /** The mask of bits 0..44 hashes to 23, and entry 23 of the table is 44. */
  lemma Case44()
    ensures DeBruijnHash(0x0000_1fff_ffff_ffff) == 23 && BsfIndex64[23] == 44
  {
    HashOf(0x0000_1fff_ffff_ffff, 23);
  }

  /** The mask of bits 0..45 hashes to 47, and entry 47 of the table is 45. */
  lemma Case45()
    ensures DeBruijnHash(0x0000_3fff_ffff_ffff) == 47 && BsfIndex64[47] == 45
  {
    HashOf(0x0000_3fff_ffff_ffff, 47);
  }

  /** The mask of bits 0..46 hashes to 32, and entry 32 of the table is 46. */
  lemma Case46()
    ensures DeBruijnHash(0x0000_7fff_ffff_ffff) == 32 && BsfIndex64[32] == 46
  {
    HashOf(0x0000_7fff_ffff_ffff, 32);
  }

  /** The mask of bits 0..47 hashes to 1, and entry 1 of the table is 47. */
  lemma Case47()
    ensures DeBruijnHash(0x0000_ffff_ffff_ffff) == 1 && BsfIndex64[1] == 47
  {
    HashOf(0x0000_ffff_ffff_ffff, 1);
  }

  /** The mask of bits 0..48 hashes to 4, and entry 4 of the table is 48. */
  lemma Case48()
    ensures DeBruijnHash(0x0001_ffff_ffff_ffff) == 4 && BsfIndex64[4] == 48
  {
    HashOf(0x0001_ffff_ffff_ffff, 4);
  }

  /** The mask of bits 0..49 hashes to 9, and entry 9 of the table is 49. */
  lemma Case49()
    ensures DeBruijnHash(0x0003_ffff_ffff_ffff) == 9 && BsfIndex64[9] == 49
  {
    HashOf(0x0003_ffff_ffff_ffff, 9);
  }

  /** The mask of bits 0..50 hashes to 20, and entry 20 of the table is 50. */
  lemma Case50()
    ensures DeBruijnHash(0x0007_ffff_ffff_ffff) == 20 && BsfIndex64[20] == 50
  {
    HashOf(0x0007_ffff_ffff_ffff, 20);
  }

  /** The mask of bits 0..51 hashes to 41, and entry 41 of the table is 51. */
  lemma Case51()
    ensures DeBruijnHash(0x000f_ffff_ffff_ffff) == 41 && BsfIndex64[41] == 51
  {
    HashOf(0x000f_ffff_ffff_ffff, 41);
  }

  /** The mask of bits 0..52 hashes to 19, and entry 19 of the table is 52. */
  lemma Case52()
    ensures DeBruijnHash(0x001f_ffff_ffff_ffff) == 19 && BsfIndex64[19] == 52
  {
    HashOf(0x001f_ffff_ffff_ffff, 19);
  }

  /** The mask of bits 0..53 hashes to 39, and entry 39 of the table is 53. */
  lemma Case53()
    ensures DeBruijnHash(0x003f_ffff_ffff_ffff) == 39 && BsfIndex64[39] == 53
  {
    HashOf(0x003f_ffff_ffff_ffff, 39);
  }

  /** The mask of bits 0..54 hashes to 16, and entry 16 of the table is 54. */
  lemma Case54()
    ensures DeBruijnHash(0x007f_ffff_ffff_ffff) == 16 && BsfIndex64[16] == 54
  {
    HashOf(0x007f_ffff_ffff_ffff, 16);
  }

  /** The mask of bits 0..55 hashes to 33, and entry 33 of the table is 55. */
  lemma Case55()
    ensures DeBruijnHash(0x00ff_ffff_ffff_ffff) == 33 && BsfIndex64[33] == 55
  {
    HashOf(0x00ff_ffff_ffff_ffff, 33);
  }

  /** The mask of bits 0..56 hashes to 3, and entry 3 of the table is 56. */
  lemma Case56()
    ensures DeBruijnHash(0x01ff_ffff_ffff_ffff) == 3 && BsfIndex64[3] == 56
  {
    HashOf(0x01ff_ffff_ffff_ffff, 3);
  }

  /** The mask of bits 0..57 hashes to 8, and entry 8 of the table is 57. */
  lemma Case57()
    ensures DeBruijnHash(0x03ff_ffff_ffff_ffff) == 8 && BsfIndex64[8] == 57
  {
    HashOf(0x03ff_ffff_ffff_ffff, 8);
  }

  /** The mask of bits 0..58 hashes to 17, and entry 17 of the table is 58. */
  lemma Case58()
    ensures DeBruijnHash(0x07ff_ffff_ffff_ffff) == 17 && BsfIndex64[17] == 58
  {
    HashOf(0x07ff_ffff_ffff_ffff, 17);
  }

  /** The mask of bits 0..59 hashes to 35, and entry 35 of the table is 59. */
  lemma Case59()
    ensures DeBruijnHash(0x0fff_ffff_ffff_ffff) == 35 && BsfIndex64[35] == 59
  {
    HashOf(0x0fff_ffff_ffff_ffff, 35);
  }

  /** The mask of bits 0..60 hashes to 7, and entry 7 of the table is 60. */
  lemma Case60()
    ensures DeBruijnHash(0x1fff_ffff_ffff_ffff) == 7 && BsfIndex64[7] == 60
  {
    HashOf(0x1fff_ffff_ffff_ffff, 7);
  }

  /** The mask of bits 0..61 hashes to 15, and entry 15 of the table is 61. */
  lemma Case61()
    ensures DeBruijnHash(0x3fff_ffff_ffff_ffff) == 15 && BsfIndex64[15] == 61
  {
    HashOf(0x3fff_ffff_ffff_ffff, 15);
  }

  /** The mask of bits 0..62 hashes to 31, and entry 31 of the table is 62. */
  lemma Case62()
    ensures DeBruijnHash(0x7fff_ffff_ffff_ffff) == 31 && BsfIndex64[31] == 62
  {
    HashOf(0x7fff_ffff_ffff_ffff, 31);
  }

  /** The mask of bits 0..63 hashes to 63, and entry 63 of the table is 63. */
  lemma Case63()
    ensures DeBruijnHash(0xffff_ffff_ffff_ffff) == 63 && BsfIndex64[63] == 63
  {
    HashOf(0xffff_ffff_ffff_ffff, 63);
  }

  /** The table maps the hash of the mask of bits 0..k back to k, for every bit index k. */
  lemma DeBruijnCase(k: bv8)
    requires k < 64
    ensures BsfIndex64[DeBruijnHash(LowMask(k + 1))] == k
  {
    if k < 8 {
      CasesFrom0(k);
    } else if k < 16 {
      CasesFrom8(k);
    } else if k < 24 {
      CasesFrom16(k);
    } else if k < 32 {
      CasesFrom24(k);
    } else if k < 40 {
      CasesFrom32(k);
    } else if k < 48 {
      CasesFrom40(k);
    } else if k < 56 {
      CasesFrom48(k);
    } else {
      CasesFrom56(k);
    }
  }

  /** DeBruijnCase for the bit indices 0..7. */
  lemma CasesFrom0(k: bv8)
    requires k < 8
    ensures BsfIndex64[DeBruijnHash(LowMask(k + 1))] == k
  {
    if k == 0 {
      assert LowMask(k + 1) == 0x0000_0000_0000_0001;
      Case0();
    } else if k == 1 {
      assert LowMask(k + 1) == 0x0000_0000_0000_0003;
      Case1();
    } else if k == 2 {
      assert LowMask(k + 1) == 0x0000_0000_0000_0007;
      Case2();
    } else if k == 3 {
      assert LowMask(k + 1) == 0x0000_0000_0000_000f;
      Case3();
    } else if k == 4 {
      assert LowMask(k + 1) == 0x0000_0000_0000_001f;
      Case4();
    } else if k == 5 {
      assert LowMask(k + 1) == 0x0000_0000_0000_003f;
      Case5();
    } else if k == 6 {
      assert LowMask(k + 1) == 0x0000_0000_0000_007f;
      Case6();
    } else {
      assert LowMask(k + 1) == 0x0000_0000_0000_00ff;
      Case7();
    }
  }

  /** DeBruijnCase for the bit indices 8..15. */
  lemma CasesFrom8(k: bv8)
    requires 8 <= k < 16
    ensures BsfIndex64[DeBruijnHash(LowMask(k + 1))] == k
  {
    if k == 8 {
      assert LowMask(k + 1) == 0x0000_0000_0000_01ff;
      Case8();
    } else if k == 9 {
      assert LowMask(k + 1) == 0x0000_0000_0000_03ff;
      Case9();
    } else if k == 10 {
      assert LowMask(k + 1) == 0x0000_0000_0000_07ff;
      Case10();
    } else if k == 11 {
      assert LowMask(k + 1) == 0x0000_0000_0000_0fff;
      Case11();
    } else if k == 12 {
      assert LowMask(k + 1) == 0x0000_0000_0000_1fff;
      Case12();
    } else if k == 13 {
      assert LowMask(k + 1) == 0x0000_0000_0000_3fff;
      Case13();
    } else if k == 14 {
      assert LowMask(k + 1) == 0x0000_0000_0000_7fff;
      Case14();
    } else {
      assert LowMask(k + 1) == 0x0000_0000_0000_ffff;
      Case15();
    }
  }

  /** DeBruijnCase for the bit indices 16..23. */
  lemma CasesFrom16(k: bv8)
    requires 16 <= k < 24
    ensures BsfIndex64[DeBruijnHash(LowMask(k + 1))] == k
  {
    if k == 16 {
      assert LowMask(k + 1) == 0x0000_0000_0001_ffff;
      Case16();
    } else if k == 17 {
      assert LowMask(k + 1) == 0x0000_0000_0003_ffff;
      Case17();
    } else if k == 18 {
      assert LowMask(k + 1) == 0x0000_0000_0007_ffff;
      Case18();
    } else if k == 19 {
      assert LowMask(k + 1) == 0x0000_0000_000f_ffff;
      Case19();
    } else if k == 20 {
      assert LowMask(k + 1) == 0x0000_0000_001f_ffff;
      Case20();
    } else if k == 21 {
      assert LowMask(k + 1) == 0x0000_0000_003f_ffff;
      Case21();
    } else if k == 22 {
      assert LowMask(k + 1) == 0x0000_0000_007f_ffff;
      Case22();
    } else {
      assert LowMask(k + 1) == 0x0000_0000_00ff_ffff;
      Case23();
    }
  }

  /** DeBruijnCase for the bit indices 24..31. */
  lemma CasesFrom24(k: bv8)
    requires 24 <= k < 32
    ensures BsfIndex64[DeBruijnHash(LowMask(k + 1))] == k
  {
    if k == 24 {
      assert LowMask(k + 1) == 0x0000_0000_01ff_ffff;
      Case24();
    } else if k == 25 {
      assert LowMask(k + 1) == 0x0000_0000_03ff_ffff;
      Case25();
    } else if k == 26 {
      assert LowMask(k + 1) == 0x0000_0000_07ff_ffff;
      Case26();
    } else if k == 27 {
      assert LowMask(k + 1) == 0x0000_0000_0fff_ffff;
      Case27();
    } else if k == 28 {
      assert LowMask(k + 1) == 0x0000_0000_1fff_ffff;
      Case28();
    } else if k == 29 {
      assert LowMask(k + 1) == 0x0000_0000_3fff_ffff;
      Case29();
    } else if k == 30 {
      assert LowMask(k + 1) == 0x0000_0000_7fff_ffff;
      Case30();
    } else {
      assert LowMask(k + 1) == 0x0000_0000_ffff_ffff;
      Case31();
    }
  }

  /** DeBruijnCase for the bit indices 32..39. */
  lemma CasesFrom32(k: bv8)
    requires 32 <= k < 40
    ensures BsfIndex64[DeBruijnHash(LowMask(k + 1))] == k
  {
    if k == 32 {
      assert LowMask(k + 1) == 0x0000_0001_ffff_ffff;
      Case32();
    } else if k == 33 {
      assert LowMask(k + 1) == 0x0000_0003_ffff_ffff;
      Case33();
    } else if k == 34 {
      assert LowMask(k + 1) == 0x0000_0007_ffff_ffff;
      Case34();
    } else if k == 35 {
      assert LowMask(k + 1) == 0x0000_000f_ffff_ffff;
      Case35();
    } else if k == 36 {
      assert LowMask(k + 1) == 0x0000_001f_ffff_ffff;
      Case36();
    } else if k == 37 {
      assert LowMask(k + 1) == 0x0000_003f_ffff_ffff;
      Case37();
    } else if k == 38 {
      assert LowMask(k + 1) == 0x0000_007f_ffff_ffff;
      Case38();
    } else {
      assert LowMask(k + 1) == 0x0000_00ff_ffff_ffff;
      Case39();
    }
  }

  /** DeBruijnCase for the bit indices 40..47. */
  lemma CasesFrom40(k: bv8)
    requires 40 <= k < 48
    ensures BsfIndex64[DeBruijnHash(LowMask(k + 1))] == k
  {
    if k == 40 {
      assert LowMask(k + 1) == 0x0000_01ff_ffff_ffff;
      Case40();
    } else if k == 41 {
      assert LowMask(k + 1) == 0x0000_03ff_ffff_ffff;
      Case41();
    } else if k == 42 {
      assert LowMask(k + 1) == 0x0000_07ff_ffff_ffff;
      Case42();
    } else if k == 43 {
      assert LowMask(k + 1) == 0x0000_0fff_ffff_ffff;
      Case43();
    } else if k == 44 {
      assert LowMask(k + 1) == 0x0000_1fff_ffff_ffff;
      Case44();
    } else if k == 45 {
      assert LowMask(k + 1) == 0x0000_3fff_ffff_ffff;
      Case45();
    } else if k == 46 {
      assert LowMask(k + 1) == 0x0000_7fff_ffff_ffff;
      Case46();
    } else {
      assert LowMask(k + 1) == 0x0000_ffff_ffff_ffff;
      Case47();
    }
  }

  /** DeBruijnCase for the bit indices 48..55. */
  lemma CasesFrom48(k: bv8)
    requires 48 <= k < 56
    ensures BsfIndex64[DeBruijnHash(LowMask(k + 1))] == k
  {
    if k == 48 {
      assert LowMask(k + 1) == 0x0001_ffff_ffff_ffff;
      Case48();
    } else if k == 49 {
      assert LowMask(k + 1) == 0x0003_ffff_ffff_ffff;
      Case49();
    } else if k == 50 {
      assert LowMask(k + 1) == 0x0007_ffff_ffff_ffff;
      Case50();
    } else if k == 51 {
      assert LowMask(k + 1) == 0x000f_ffff_ffff_ffff;
      Case51();
    } else if k == 52 {
      assert LowMask(k + 1) == 0x001f_ffff_ffff_ffff;
      Case52();
    } else if k == 53 {
      assert LowMask(k + 1) == 0x003f_ffff_ffff_ffff;
      Case53();
    } else if k == 54 {
      assert LowMask(k + 1) == 0x007f_ffff_ffff_ffff;
      Case54();
    } else {
      assert LowMask(k + 1) == 0x00ff_ffff_ffff_ffff;
      Case55();
    }
  }

  /** DeBruijnCase for the bit indices 56..63. */
  lemma CasesFrom56(k: bv8)
    requires 56 <= k < 64
    ensures BsfIndex64[DeBruijnHash(LowMask(k + 1))] == k
  {
    if k == 56 {
      assert LowMask(k + 1) == 0x01ff_ffff_ffff_ffff;
      Case56();
    } else if k == 57 {
      assert LowMask(k + 1) == 0x03ff_ffff_ffff_ffff;
      Case57();
    } else if k == 58 {
      assert LowMask(k + 1) == 0x07ff_ffff_ffff_ffff;
      Case58();
    } else if k == 59 {
      assert LowMask(k + 1) == 0x0fff_ffff_ffff_ffff;
      Case59();
    } else if k == 60 {
      assert LowMask(k + 1) == 0x1fff_ffff_ffff_ffff;
      Case60();
    } else if k == 61 {
      assert LowMask(k + 1) == 0x3fff_ffff_ffff_ffff;
      Case61();
    } else if k == 62 {
      assert LowMask(k + 1) == 0x7fff_ffff_ffff_ffff;
      Case62();
    } else {
      assert LowMask(k + 1) == 0xffff_ffff_ffff_ffff;
      Case63();
    }
  }

  /** Every table entry is a bit index whose mask hashes back to that entry's position. */
  lemma TableInverse(i: int)
    requires 0 <= i < 64
    ensures BsfIndex64[i] < 64
    ensures DeBruijnHash(LowMask(BsfIndex64[i] + 1)) == i
  {
    if i < 4 {
      EntriesFrom0(i);
    } else if i < 8 {
      EntriesFrom4(i);
    } else if i < 12 {
      EntriesFrom8(i);
    } else if i < 16 {
      EntriesFrom12(i);
    } else if i < 20 {
      EntriesFrom16(i);
    } else if i < 24 {
      EntriesFrom20(i);
    } else if i < 28 {
      EntriesFrom24(i);
    } else if i < 32 {
      EntriesFrom28(i);
    } else if i < 36 {
      EntriesFrom32(i);
    } else if i < 40 {
      EntriesFrom36(i);
    } else if i < 44 {
      EntriesFrom40(i);
    } else if i < 48 {
      EntriesFrom44(i);
    } else if i < 52 {
      EntriesFrom48(i);
    } else if i < 56 {
      EntriesFrom52(i);
    } else if i < 60 {
      EntriesFrom56(i);
    } else {
      EntriesFrom60(i);
    }
  }

  /** TableInverse for the table positions 0..3. */
  lemma EntriesFrom0(i: int)
    requires 0 <= i < 4
    ensures BsfIndex64[i] < 64
    ensures DeBruijnHash(LowMask(BsfIndex64[i] + 1)) == i
  {
    if i == 0 {
      Case0();
      assert LowMask(0 + 1) == 0x0000_0000_0000_0001;
    } else if i == 1 {
      Case47();
      assert LowMask(47 + 1) == 0x0000_ffff_ffff_ffff;
    } else if i == 2 {
      Case1();
      assert LowMask(1 + 1) == 0x0000_0000_0000_0003;
    } else {
      Case56();
      assert LowMask(56 + 1) == 0x01ff_ffff_ffff_ffff;
    }
  }

  /** TableInverse for the table positions 4..7. */
  lemma EntriesFrom4(i: int)
    requires 4 <= i < 8
    ensures BsfIndex64[i] < 64
    ensures DeBruijnHash(LowMask(BsfIndex64[i] + 1)) == i
  {
    if i == 4 {
      Case48();
      assert LowMask(48 + 1) == 0x0001_ffff_ffff_ffff;
    } else if i == 5 {
      Case27();
      assert LowMask(27 + 1) == 0x0000_0000_0fff_ffff;
    } else if i == 6 {
      Case2();
      assert LowMask(2 + 1) == 0x0000_0000_0000_0007;
    } else {
      Case60();
      assert LowMask(60 + 1) == 0x1fff_ffff_ffff_ffff;
    }
  }

  /** TableInverse for the table positions 8..11. */
  lemma EntriesFrom8(i: int)
    requires 8 <= i < 12
    ensures BsfIndex64[i] < 64
    ensures DeBruijnHash(LowMask(BsfIndex64[i] + 1)) == i
  {
    if i == 8 {
      Case57();
      assert LowMask(57 + 1) == 0x03ff_ffff_ffff_ffff;
    } else if i == 9 {
      Case49();
      assert LowMask(49 + 1) == 0x0003_ffff_ffff_ffff;
    } else if i == 10 {
      Case41();
      assert LowMask(41 + 1) == 0x0000_03ff_ffff_ffff;
    } else {
      Case37();
      assert LowMask(37 + 1) == 0x0000_003f_ffff_ffff;
    }
  }

  /** TableInverse for the table positions 12..15. */
  lemma EntriesFrom12(i: int)
    requires 12 <= i < 16
    ensures BsfIndex64[i] < 64
    ensures DeBruijnHash(LowMask(BsfIndex64[i] + 1)) == i
  {
    if i == 12 {
      Case28();
      assert LowMask(28 + 1) == 0x0000_0000_1fff_ffff;
    } else if i == 13 {
      Case16();
      assert LowMask(16 + 1) == 0x0000_0000_0001_ffff;
    } else if i == 14 {
      Case3();
      assert LowMask(3 + 1) == 0x0000_0000_0000_000f;
    } else {
      Case61();
      assert LowMask(61 + 1) == 0x3fff_ffff_ffff_ffff;
    }
  }

  /** TableInverse for the table positions 16..19. */
  lemma EntriesFrom16(i: int)
    requires 16 <= i < 20
    ensures BsfIndex64[i] < 64
    ensures DeBruijnHash(LowMask(BsfIndex64[i] + 1)) == i
  {
    if i == 16 {
      Case54();
      assert LowMask(54 + 1) == 0x007f_ffff_ffff_ffff;
    } else if i == 17 {
      Case58();
      assert LowMask(58 + 1) == 0x07ff_ffff_ffff_ffff;
    } else if i == 18 {
      Case35();
      assert LowMask(35 + 1) == 0x0000_000f_ffff_ffff;
    } else {
      Case52();
      assert LowMask(52 + 1) == 0x001f_ffff_ffff_ffff;
    }
  }

  /** TableInverse for the table positions 20..23. */
  lemma EntriesFrom20(i: int)
    requires 20 <= i < 24
    ensures BsfIndex64[i] < 64
    ensures DeBruijnHash(LowMask(BsfIndex64[i] + 1)) == i
  {
    if i == 20 {
      Case50();
      assert LowMask(50 + 1) == 0x0007_ffff_ffff_ffff;
    } else if i == 21 {
      Case42();
      assert LowMask(42 + 1) == 0x0000_07ff_ffff_ffff;
    } else if i == 22 {
      Case21();
      assert LowMask(21 + 1) == 0x0000_0000_003f_ffff;
    } else {
      Case44();
      assert LowMask(44 + 1) == 0x0000_1fff_ffff_ffff;
    }
  }

  /** TableInverse for the table positions 24..27. */
  lemma EntriesFrom24(i: int)
    requires 24 <= i < 28
    ensures BsfIndex64[i] < 64
    ensures DeBruijnHash(LowMask(BsfIndex64[i] + 1)) == i
  {
    if i == 24 {
      Case38();
      assert LowMask(38 + 1) == 0x0000_007f_ffff_ffff;
    } else if i == 25 {
      Case32();
      assert LowMask(32 + 1) == 0x0000_0001_ffff_ffff;
    } else if i == 26 {
      Case29();
      assert LowMask(29 + 1) == 0x0000_0000_3fff_ffff;
    } else {
      Case23();
      assert LowMask(23 + 1) == 0x0000_0000_00ff_ffff;
    }
  }

  /** TableInverse for the table positions 28..31. */
  lemma EntriesFrom28(i: int)
    requires 28 <= i < 32
    ensures BsfIndex64[i] < 64
    ensures DeBruijnHash(LowMask(BsfIndex64[i] + 1)) == i
  {
    if i == 28 {
      Case17();
      assert LowMask(17 + 1) == 0x0000_0000_0003_ffff;
    } else if i == 29 {
      Case11();
      assert LowMask(11 + 1) == 0x0000_0000_0000_0fff;
    } else if i == 30 {
      Case4();
      assert LowMask(4 + 1) == 0x0000_0000_0000_001f;
    } else {
      Case62();
      assert LowMask(62 + 1) == 0x7fff_ffff_ffff_ffff;
    }
  }

  /** TableInverse for the table positions 32..35. */
  lemma EntriesFrom32(i: int)
    requires 32 <= i < 36
    ensures BsfIndex64[i] < 64
    ensures DeBruijnHash(LowMask(BsfIndex64[i] + 1)) == i
  {
    if i == 32 {
      Case46();
      assert LowMask(46 + 1) == 0x0000_7fff_ffff_ffff;
    } else if i == 33 {
      Case55();
      assert LowMask(55 + 1) == 0x00ff_ffff_ffff_ffff;
    } else if i == 34 {
      Case26();
      assert LowMask(26 + 1) == 0x0000_0000_07ff_ffff;
    } else {
      Case59();
      assert LowMask(59 + 1) == 0x0fff_ffff_ffff_ffff;
    }
  }

  /** TableInverse for the table positions 36..39. */
  lemma EntriesFrom36(i: int)
    requires 36 <= i < 40
    ensures BsfIndex64[i] < 64
    ensures DeBruijnHash(LowMask(BsfIndex64[i] + 1)) == i
  {
    if i == 36 {
      Case40();
      assert LowMask(40 + 1) == 0x0000_01ff_ffff_ffff;
    } else if i == 37 {
      Case36();
      assert LowMask(36 + 1) == 0x0000_001f_ffff_ffff;
    } else if i == 38 {
      Case15();
      assert LowMask(15 + 1) == 0x0000_0000_0000_ffff;
    } else {
      Case53();
      assert LowMask(53 + 1) == 0x003f_ffff_ffff_ffff;
    }
  }

  /** TableInverse for the table positions 40..43. */
  lemma EntriesFrom40(i: int)
    requires 40 <= i < 44
    ensures BsfIndex64[i] < 64
    ensures DeBruijnHash(LowMask(BsfIndex64[i] + 1)) == i
  {
    if i == 40 {
      Case34();
      assert LowMask(34 + 1) == 0x0000_0007_ffff_ffff;
    } else if i == 41 {
      Case51();
      assert LowMask(51 + 1) == 0x000f_ffff_ffff_ffff;
    } else if i == 42 {
      Case20();
      assert LowMask(20 + 1) == 0x0000_0000_001f_ffff;
    } else {
      Case43();
      assert LowMask(43 + 1) == 0x0000_0fff_ffff_ffff;
    }
  }

  /** TableInverse for the table positions 44..47. */
  lemma EntriesFrom44(i: int)
    requires 44 <= i < 48
    ensures BsfIndex64[i] < 64
    ensures DeBruijnHash(LowMask(BsfIndex64[i] + 1)) == i
  {
    if i == 44 {
      Case31();
      assert LowMask(31 + 1) == 0x0000_0000_ffff_ffff;
    } else if i == 45 {
      Case22();
      assert LowMask(22 + 1) == 0x0000_0000_007f_ffff;
    } else if i == 46 {
      Case10();
      assert LowMask(10 + 1) == 0x0000_0000_0000_07ff;
    } else {
      Case45();
      assert LowMask(45 + 1) == 0x0000_3fff_ffff_ffff;
    }
  }

  /** TableInverse for the table positions 48..51. */
  lemma EntriesFrom48(i: int)
    requires 48 <= i < 52
    ensures BsfIndex64[i] < 64
    ensures DeBruijnHash(LowMask(BsfIndex64[i] + 1)) == i
  {
    if i == 48 {
      Case25();
      assert LowMask(25 + 1) == 0x0000_0000_03ff_ffff;
    } else if i == 49 {
      Case39();
      assert LowMask(39 + 1) == 0x0000_00ff_ffff_ffff;
    } else if i == 50 {
      Case14();
      assert LowMask(14 + 1) == 0x0000_0000_0000_7fff;
    } else {
      Case33();
      assert LowMask(33 + 1) == 0x0000_0003_ffff_ffff;
    }
  }

  /** TableInverse for the table positions 52..55. */
  lemma EntriesFrom52(i: int)
    requires 52 <= i < 56
    ensures BsfIndex64[i] < 64
    ensures DeBruijnHash(LowMask(BsfIndex64[i] + 1)) == i
  {
    if i == 52 {
      Case19();
      assert LowMask(19 + 1) == 0x0000_0000_000f_ffff;
    } else if i == 53 {
      Case30();
      assert LowMask(30 + 1) == 0x0000_0000_7fff_ffff;
    } else if i == 54 {
      Case9();
      assert LowMask(9 + 1) == 0x0000_0000_0000_03ff;
    } else {
      Case24();
      assert LowMask(24 + 1) == 0x0000_0000_01ff_ffff;
    }
  }

  /** TableInverse for the table positions 56..59. */
  lemma EntriesFrom56(i: int)
    requires 56 <= i < 60
    ensures BsfIndex64[i] < 64
    ensures DeBruijnHash(LowMask(BsfIndex64[i] + 1)) == i
  {
    if i == 56 {
      Case13();
      assert LowMask(13 + 1) == 0x0000_0000_0000_3fff;
    } else if i == 57 {
      Case18();
      assert LowMask(18 + 1) == 0x0000_0000_0007_ffff;
    } else if i == 58 {
      Case8();
      assert LowMask(8 + 1) == 0x0000_0000_0000_01ff;
    } else {
      Case12();
      assert LowMask(12 + 1) == 0x0000_0000_0000_1fff;
    }
  }

  /** TableInverse for the table positions 60..63. */
  lemma EntriesFrom60(i: int)
    requires 60 <= i < 64
    ensures BsfIndex64[i] < 64
    ensures DeBruijnHash(LowMask(BsfIndex64[i] + 1)) == i
  {
    if i == 60 {
      Case7();
      assert LowMask(7 + 1) == 0x0000_0000_0000_00ff;
    } else if i == 61 {
      Case6();
      assert LowMask(6 + 1) == 0x0000_0000_0000_007f;
    } else if i == 62 {
      Case5();
      assert LowMask(5 + 1) == 0x0000_0000_0000_003f;
    } else {
      Case63();
      assert LowMask(63 + 1) == 0xffff_ffff_ffff_ffff;
    }
  }

  /** t holds each of the bit positions 0..63 exactly once. */
  ghost predicate IsPermutation64(t: seq<bv8>)
  {
    && |t| == 64
    && (forall i :: 0 <= i < 64 ==> t[i] < 64)
    && (forall i, j :: 0 <= i < 64 && 0 <= j < 64 && t[i] == t[j] ==> i == j)
    && (forall v: bv8 :: v < 64 ==> v in t)
  }

  /** Every entry of `bsfIndex64` is a bit index. */
  lemma TableRange(i: int)
    requires 0 <= i < 64
    ensures BsfIndex64[i] < 64
  {
    TableInverse(i);
  }

  /** No bit index appears twice in `bsfIndex64`. */
  lemma TableInjective(i: int, j: int)
    requires 0 <= i < 64 && 0 <= j < 64 && BsfIndex64[i] == BsfIndex64[j]
    ensures i == j
  {
    TableInverse(i);
    TableInverse(j);
  }

  /** Every bit index appears in `bsfIndex64`, at the hash of its mask. */
  lemma TableCovers(v: bv8)
    requires v < 64
    ensures v in BsfIndex64
  {
    DeBruijnCase(v);
    var i := DeBruijnHash(LowMask(v + 1));
    assert BsfIndex64[i] == v;
  }

  /** `bsfIndex64` holds each bit index 0..63 exactly once. */
  lemma TableIsPermutation()
    ensures IsPermutation64(BsfIndex64)
  {
    forall i | 0 <= i < 64
      ensures BsfIndex64[i] < 64
    {
      TableRange(i);
    }
    forall i, j | 0 <= i < 64 && 0 <= j < 64 && BsfIndex64[i] == BsfIndex64[j]
      ensures i == j
    {
      TableInjective(i, j);
    }
    forall v: bv8 | v < 64
      ensures v in BsfIndex64
    {
      TableCovers(v);
    }
  }

  // ---------------------------------------------------------------------
  // Correctness
  // ---------------------------------------------------------------------

  /** A board whose isolated low mask covers bits 0..k scans to k. */
  lemma ScanOfMask(bb: U64, k: bv8)
    requires bb != 0 && k < 64 && bb ^ (bb - 1) == LowMask(k + 1)
    ensures ScanIndex(bb) == k
  {
    DeBruijnCase(k);
  }

  /** For a nonempty board the fast scan returns the index of the least significant one bit. */
  lemma ScanIndexCorrect(bb: U64)
    requires bb != 0
    ensures ScanIndex(bb) == LowestSetBit(bb)
  {
    var k := LowestSetBit(bb);
    IsolateLowest(bb, k);
    ScanOfMask(bb, k);
  }

  /** `bitScanForward(bb)` is a position whose bit is set and below which every bit is clear. */
  lemma BitScanForwardCorrect(bb: U64)
    requires bb != 0
    ensures BitScanForward(bb) == LowestSetBit(bb) as int
    ensures Bit(bb, ScanIndex(bb)) && NoBitBelow(bb, ScanIndex(bb))
    ensures forall j: bv8 :: j < 64 && Bit(bb, j) && NoBitBelow(bb, j) ==> BitScanForward(bb) == j as int
  {
    ScanIndexCorrect(bb);
    forall j: bv8 | j < 64 && Bit(bb, j) && NoBitBelow(bb, j)
      ensures BitScanForward(bb) == j as int
    {
      LowestUnique(bb, j, ScanIndex(bb));
    }
  }

  /** The lowest square, the highest square alone, and a board with squares 1 and 6. */
  lemma BitScanForwardExamples()
    ensures BitScanForward(1) == 0
    ensures BitScanForward(0x8000_0000_0000_0000) == 63
    ensures BitScanForward(0x42) == 1
  {
    Case0();
    Case63();
    Case1();
    var bb: U64 := 0x42;
    assert bb ^ (bb - 1) == 0x3;
  }
}
