# Zenith bitboard primitives in Dafny

This project models the bitboard primitives of the Zenith engine
(`zenith.cpp`) and proves them correct. A bitboard is a 64-bit unsigned word
with one bit per square, bit 0 being the least significant.

- `bitboard.dfy` (module `Bitboard`) is the shared vocabulary. It defines the
  word type `U64` (`bv64`, whose `-`, `*` and `>>` wrap as in C++), the single
  bit `1 << k`, the mask of bits `0..k-1`, and the naive tests "bit k is set"
  and "no bit below k is set". It also holds the small mask lemmas the bit
  scan needs.
- `popcount.dfy` (module `PopCount`) models population counting:
  - the 256-entry table `popCountByte` and `initPopCountByte`, as a method
    that fills an array in place;
  - `popCount`, as a method whose loop sums the table entries of the eight
    bytes of a word.

  The reference count is the recurrence the source states:
  f(0) = 0 and f(n) = f(n / 2) + n mod 2.
- `bitscan.dfy` (module `BitScan`) models `bitScanForward`, the De Bruijn
  bit scan, as a function. It is proved equal to a reference scan: the
  position k whose bit is set while every bit below k is clear. The proof
  goes in three steps:
  1. `bb ^ (bb - 1)` is exactly the mask of bits `0..k`.
  2. Each of the 64 possible masks hashes, through the wrapped product
     with `debruijn64` and the top six bits, to a table position that holds
     k.
  3. The table `bsfIndex64` therefore holds each bit index `0..63` exactly
     once.

## Model

| member | source | states |
|---|---|---|
| `PopCount.Ones` | zenith.cpp:11-14 | the population count f of a natural number, defined by the recurrence f(0) = 0 and f(n) = f(n / 2) + n mod 2 |
| `PopCount.BitCount` | zenith.cpp:11-14 | the population count of a bitboard is f applied to the word's unsigned value, and it never exceeds 64 |
| `PopCount.IsPopCountTable` | zenith.cpp:17-18 | the table's documented meaning: 256 entries, and entry i is the population count of i |
| `PopCount.InitPopCountByte` | zenith.cpp:23-28 | after initialisation, entry i of the 256-entry table is the number of one bits of i, for every byte value i, and no entry exceeds 8 |
| `PopCount.OnesStep` | zenith.cpp:11-14 | the population count satisfies f(n) = f(n / 2) + n mod 2, including at n = 0 |
| `PopCount.TableStep` | zenith.cpp:26 | entry i / 2 plus the low bit of i is the count of i and at most 8, so the `unsigned char` store keeps it exactly |
| `PopCount.StoreByte` | zenith.cpp:18 | storing an `int` into an `unsigned char` keeps any value in 0..255 unchanged |
| `PopCount.ByteBound` | zenith.cpp:17-18 | every byte value has at most 8 one bits |
| `PopCount.OnesConcat` | zenith.cpp:11-14 | placing m above j low bits r adds the counts: f(2^j * m + r) = f(r) + f(m) |
| `PopCount.ByteSplit` | zenith.cpp:38-39 | the count of a word is the count of its low byte (`bb & 0xff`) plus the count of the rest (`bb >> 8`) |
| `PopCount.SumBytes` | zenith.cpp:37-40 | the eight-step loop adds exactly the population count of bb to whatever value the accumulator starts with |
| `PopCount.PopCount` | zenith.cpp:35-42 | with the accumulator starting at 0, the result is the population count of bb; it lies in 0..64; it is 0 exactly for the empty board; it is 64 for the full board; it is 1 for the board holding only square 63 |
| `PopCount.UninitialisedCounterexample` | zenith.cpp:36 | if the uninitialised accumulator happens to hold 1, the empty board is reported as having one bit although its count is 0 |
| `PopCount.BitCountRange` | zenith.cpp:30-34 | a bitboard has at most 64 one bits, and none exactly when it is empty |
| `PopCount.BitCountAllOnes` | zenith.cpp:30-34 | the full board has 64 one bits |
| `PopCount.BitCountTopSquare` | zenith.cpp:30-34 | the board holding only square 63 (`0x8000000000000000`) has one bit |
| `BitScan.DeBruijnHash` | zenith.cpp:65-67 | `(m * debruijn64) >> 58`, with the product wrapped to 64 bits, is a valid index 0..63 into the table |
| `BitScan.ScanIndex` | zenith.cpp:67 | the table entry at the hash of `bb ^ (bb - 1)`, for a nonempty board, is a bit position below 64 |
| `BitScan.BitScanForward` | zenith.cpp:64-68 | for a nonempty board (the source's `assert`), the result is an index in 0..63 |
| `BitScan.LowestExists` | zenith.cpp:59 | a nonempty board that is clear below bit i has a lowest one bit at i or above |
| `BitScan.LowestSetBit` | zenith.cpp:44 | the reference scan returns a position below 64 whose bit is set and below which every bit is clear |
| `BitScan.LowestUnique` | zenith.cpp:44 | only one position has its bit set with every bit below it clear |
| `BitScan.IsolateLowest` | zenith.cpp:67 | when k is the lowest one bit of bb, `bb ^ (bb - 1)` is the mask of bits 0..k |
| `BitScan.DeBruijnCase` | zenith.cpp:47-67 | for every bit index k, the table entry at the hash of the mask of bits 0..k is k |
| `BitScan.TableInverse` | zenith.cpp:47-56 | every table entry is a bit index whose mask hashes back to that entry's position |
| `BitScan.TableRange` | zenith.cpp:47-56 | every table entry lies in 0..63 |
| `BitScan.TableInjective` | zenith.cpp:47-56 | no bit index appears twice in the table |
| `BitScan.TableCovers` | zenith.cpp:47-56 | every bit index 0..63 appears in the table |
| `BitScan.TableIsPermutation` | zenith.cpp:47-56 | the 64-entry table holds each of 0..63 exactly once |
| `BitScan.ScanIndexCorrect` | zenith.cpp:58-67 | for a nonempty board, the table entry that `bitScanForward` looks up is the position of the least significant one bit |
| `BitScan.BitScanForwardCorrect` | zenith.cpp:58-67 | for a nonempty board, the result equals the reference scan: its bit is set and every bit below it is clear, and it is the only position with that property |
| `BitScan.BitScanForwardExamples` | zenith.cpp:62 | square 0 scans to 0, the top square alone scans to 63, and a board with squares 1 and 6 scans to 1 |

## Left out

- `main` (zenith.cpp:7-9) is not modelled. It only calls `initPopCountByte`, which it uses before that function is declared.
- The global table `popCountByte` is modelled as an array parameter. The requirement that initialisation has run before `popCount` becomes the precondition `IsPopCountTable`. Static zero-initialisation of the global is not modelled.
- `i & 1` for the loop index (zenith.cpp:26) is modelled as `i % 2`. These agree for the non-negative indices the loop uses.
- The byte operations of `popCount` are modelled on the word's value as a natural number: `bb & 0xff` as `bb % 256` and `bb >> 8` as `bb / 256`. This is exact for an unsigned word.
- `PopCount.PopCount`: the count is the recurrence f(n) = f(n / 2) + n mod 2 on the word's value. It is not proved equal to a count of the positions k where `Bitboard.Bit` holds.
- The `assert (bb != 0)` of `bitScanForward` is the precondition `bb != 0`. Builds with assertions disabled are not modelled. For them, `bb = 0` produces the all-ones mask, the same mask as a board whose lowest bit is 63 (`BitScan.Case63`), so such a build would return 63.
- The source declares `bsfIndex64` as `const int`. The model stores its entries as 8-bit values. Every entry is in 0..63, so nothing is lost.

## Findings

| source | as written | input that shows it | evidently intended | confidence | as-written member | corrected member |
|---|---|---|---|---|---|---|
| zenith.cpp:36 | `int s;` is never initialised before `s += popCountByte[bb & 0xff]` | any call, e.g. `popCount(0)` when the indeterminate `s` holds 1: the result is 1, but the board has no bits | `int s = 0;` | not executed | `PopCount.UninitialisedCounterexample` | `PopCount.PopCount` |

`PopCount.SumBytes` models the loop as written, starting from an arbitrary
accumulator value. `PopCount.UninitialisedCounterexample` runs it from 1 on the
empty board. `PopCount.PopCount` starts it from 0.
