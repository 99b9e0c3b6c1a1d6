/**
 * Population count: the number of one bits of a bitboard. The engine keeps
 * a 256-entry table `popCountByte` holding the count of every byte value,
 * filled by the recurrence f(0) = 0, f(n) = f(n / 2) + n mod 2, and counts a
 * 64-bit word by summing the table entries of its eight bytes, least
 * significant byte first.
 *
 * The byte-wise loop only masks (`bb & 0xff`) and shifts (`bb >> 8`) the
 * unsigned word, so it is modelled on the word's value as a natural number:
 * `bb & 0xff` is `bb % 256` and `bb >> 8` is `bb / 256`, which is exact for
 * unsigned operands.
 */
module PopCount {
  import opened Bitboard

  /** The table's element type, `unsigned char`. */
  newtype uint8 = x: int | 0 <= x < 256

  // ---------------------------------------------------------------------
  // The reference count
  // ---------------------------------------------------------------------

  /** The number of one bits of n, by the recurrence f(0) = 0, f(n) = f(n / 2) + n mod 2. */
  function Ones(n: nat): (c: nat)
  {
    if n == 0 then 0 else Ones(n / 2) + n % 2
  }

  /** The population count of a bitboard: the one bits of its unsigned value, at most one per square. */
  function BitCount(bb: U64): (c: nat)
    ensures c <= 64
  {
    WordBound(bb);
    OnesBound(bb as int, 64);
    Ones(bb as int)
  }

  /** 2^j as a natural number. */
  function TwoTo(j: nat): (p: nat)
    ensures p >= 1
  {
    if j == 0 then 1 else 2 * TwoTo(j - 1)
  }

  /** The recurrence holds at 0 as well: f(0) = f(0) + 0. */
  lemma OnesStep(n: nat)
    ensures Ones(n) == Ones(n / 2) + n % 2
  {
  }

  /** Halving a number written as 2q + b. */
  lemma Halve(n: nat, q: nat, b: nat)
    requires b < 2 && n == 2 * q + b
    ensures n / 2 == q && n % 2 == b
  {
  }

  /** Regrouping a product whose first factor is even. */
  lemma Double(d: nat, e: nat, m: nat)
    requires d == 2 * e
    ensures d * m == 2 * (e * m)
  {
  }

  /** Putting m above the j low bits r adds their counts: f(2^j * m + r) = f(r) + f(m). */
  lemma {:induction false} OnesConcat(m: nat, r: nat, j: nat)
    requires r < TwoTo(j)
    ensures Ones(TwoTo(j) * m + r) == Ones(r) + Ones(m)
  {
    if j > 0 {
      var e := TwoTo(j - 1);
      Double(TwoTo(j), e, m);
      Halve(TwoTo(j) * m + r, e * m + r / 2, r % 2);
      OnesStep(TwoTo(j) * m + r);
      OnesStep(r);
      OnesConcat(m, r / 2, j - 1);
    }
  }

  /** A number below 2^j has at most j one bits. */
  lemma {:induction false} OnesBound(n: nat, j: nat)
    requires n < TwoTo(j)
    ensures Ones(n) <= j
  {
    if j > 0 && n > 0 {
      OnesBound(n / 2, j - 1);
    }
  }

  /** Only 0 has no one bits. */
  lemma {:induction false} OnesZero(n: nat)
    ensures Ones(n) == 0 <==> n == 0
  {
    if n > 0 && n % 2 == 0 {
      OnesZero(n / 2);
    }
  }

  /** The j low bits all set, 2^j - 1, has j one bits. */
  lemma {:induction false} OnesAllSet(j: nat)
    ensures Ones(TwoTo(j) - 1) == j
  {
    if j > 0 {
      Halve(TwoTo(j) - 1, TwoTo(j - 1) - 1, 1);
      OnesAllSet(j - 1);
    }
  }

  /** 2^(k+1) is twice 2^k. */
  lemma TwoToStep(k: nat)
    ensures TwoTo(k + 1) == 2 * TwoTo(k)
  {
  }

  /** 2^(k+8) is 256 times 2^k. */
  lemma TwoToByte(k: nat)
    ensures TwoTo(k + 8) == 256 * TwoTo(k)
  {
    TwoToStep(k);
    TwoToStep(k + 1);
    TwoToStep(k + 2);
    TwoToStep(k + 3);
    TwoToStep(k + 4);
    TwoToStep(k + 5);
    TwoToStep(k + 6);
    TwoToStep(k + 7);
  }

  /** The number of byte values. */
  lemma ByteSize()
    ensures TwoTo(8) == 256
  {
    TwoToByte(0);
  }

  /** The number of 64-bit words. */
  lemma WordSize()
    ensures TwoTo(64) == 0x1_0000_0000_0000_0000
  {
    ByteSize();
    TwoToByte(8);
    assert TwoTo(16) == 0x1_0000;
    TwoToByte(16);
    TwoToByte(24);
    assert TwoTo(32) == 0x1_0000_0000;
    TwoToByte(32);
    TwoToByte(40);
    TwoToByte(48);
    TwoToByte(56);
  }

  /** The count of n is that of its low byte plus that of the rest: f(n) = f(n & 0xff) + f(n >> 8). */
  lemma ByteSplit(n: nat)
    ensures Ones(n) == Ones(n % 256) + Ones(n / 256)
  {
    ByteSize();
    OnesConcat(n / 256, n % 256, 8);
  }

  /** A byte has at most 8 one bits, so its count fits an `unsigned char`. */
  lemma ByteBound(n: nat)
    requires n < 256
    ensures Ones(n) <= 8
  {
    ByteSize();
    OnesBound(n, 8);
  }

  /** A bitboard has between 0 and 64 one bits, and none exactly when it is empty. */
  lemma BitCountRange(bb: U64)
    ensures BitCount(bb) <= 64
    ensures BitCount(bb) == 0 <==> bb == 0
  {
    WordSize();
    OnesBound(bb as int, 64);
    OnesZero(bb as int);
  }

  /** Every byte value has at most 8 one bits. */
  lemma AllBytesBound()
    ensures forall n :: 0 <= n < 256 ==> Ones(n) <= 8
  {
    forall n | 0 <= n < 256
      ensures Ones(n) <= 8
    {
      ByteBound(n);
    }
  }

  /** The board holding only square 63 has one bit. */
  lemma BitCountTopSquare()
    ensures BitCount(0x8000_0000_0000_0000) == 1
  {
    WordSize();
    assert TwoTo(63) * 2 == TwoTo(64);
    assert (0x8000_0000_0000_0000 as U64) as int == TwoTo(63);
    OnesConcat(1, 0, 63);
  }

  /** The full board has 64 one bits. */
  lemma BitCountAllOnes()
    ensures BitCount(AllOnes) == 64
  {
    WordSize();
    OnesAllSet(64);
  }

  /** A word below 2^(k+8) shifted right by a byte is below 2^k. */
  lemma ShiftBound(b: nat, k: nat)
    requires b < TwoTo(k + 8)
    ensures b / 256 < TwoTo(k)
  {
    TwoToByte(k);
  }

  /** One step of the word loop: the low byte's count is split off and the rest fits one byte less. */
  lemma ByteStep(b: nat, k: nat)
    requires 8 <= k && b < TwoTo(k)
    ensures Ones(b) == Ones(b % 256) + Ones(b / 256)
    ensures b / 256 < TwoTo(k - 8)
  {
    ByteSplit(b);
    ShiftBound(b, k - 8);
  }

  /** The value of a 64-bit word is below 2^64. */
  lemma WordBound(bb: U64)
    ensures bb as int < TwoTo(64)
  {
    WordSize();
  }

  /** One step of the table loop: entry i / 2 plus the low bit of i is the count of i, and fits a byte. */
  lemma TableStep(i: nat, v: int)
    requires i < 256 && v == Ones(i / 2)
    ensures v + i % 2 == Ones(i) && v + i % 2 <= 8
  {
    OnesStep(i);
    ByteBound(i);
  }

  // ---------------------------------------------------------------------
  // The byte table
  // ---------------------------------------------------------------------

  /** Storing an `int` into an `unsigned char` keeps it modulo 256. */
  function StoreByte(v: int): (b: uint8)
    ensures 0 <= v < 256 ==> b as int == v
  {
    (v % 256) as uint8
  }

  /** t holds the population count of every byte value. */
  ghost predicate IsPopCountTable(t: array<uint8>)
    reads t
  {
    t.Length == 256 && forall i :: 0 <= i < 256 ==> t[i] as int == Ones(i)
  }

  /**
   * `initPopCountByte`: seed entry 0, then fill entry i from entry i / 2,
   * which is already final since i / 2 < i (and for i = 0 it is entry 0
   * itself, which adds 0 to the seed).
   */
  method InitPopCountByte(t: array<uint8>)
    requires t.Length == 256
    modifies t
    ensures IsPopCountTable(t)
    ensures forall i :: 0 <= i < 256 ==> t[i] <= 8
  {
    t[0] := 0;
    for i := 0 to 256
      invariant t[0] == 0
      invariant forall j {:trigger t[j]} :: 0 <= j < i ==> t[j] as int == Ones(j)
    {
      var half := t[i / 2];
      TableStep(i, half as int);
      t[i] := StoreByte(half as int + i % 2);
      assert t[i] as int == Ones(i);
    }
    forall i | 0 <= i < 256
      ensures t[i] <= 8
    {
      ByteBound(i);
    }
  }

  // ---------------------------------------------------------------------
  // The word count
  // ---------------------------------------------------------------------

  /**
   * The loop of `popCount`, started from accumulator s0: add the table entry
   * of the low byte, shift the word right by a byte, eight times.
   */
  method SumBytes(t: array<uint8>, bb: U64, s0: int) returns (s: int)
    requires IsPopCountTable(t)
    ensures s == s0 + BitCount(bb)
  {
    WordBound(bb);
    s := s0;
    var b: nat := bb as int;
    ghost var k: nat := 64;
    for i := 0 to 8
      invariant k == 64 - 8 * i && b < TwoTo(k)
      invariant s + Ones(b) == s0 + Ones(bb as int)
    {
      ByteStep(b, k);
      assert t[b % 256] as int == Ones(b % 256);
      s := s + t[b % 256] as int;
      b := b / 256;
      k := k - 8;
    }
  }

  /** `popCount` with its accumulator initialised to 0. */
  method PopCount(t: array<uint8>, bb: U64) returns (s: int)
    requires IsPopCountTable(t)
    ensures s == BitCount(bb)
    ensures 0 <= s <= 64
    ensures s == 0 <==> bb == 0
    ensures bb == AllOnes ==> s == 64
    ensures bb == 0x8000_0000_0000_0000 ==> s == 1
  {
    s := SumBytes(t, bb, 0);
    BitCountRange(bb);
    BitCountAllOnes();
    BitCountTopSquare();
  }

  /** With an accumulator that happens to start at 1, the loop reports one bit for the empty board. */
  method UninitialisedCounterexample(t: array<uint8>) returns (s: int)
    requires IsPopCountTable(t)
    ensures s == 1 && BitCount(0) == 0
  {
    s := SumBytes(t, 0, 1);
    BitCountRange(0);
  }
}
