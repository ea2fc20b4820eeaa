/**
  Disk blocks as 512 bytes, the way fs.c looks at them: little-endian block
  numbers in an indirect block, one bit per block in the free map.
 */
module FsBytes {

  const U32 := 0x1_0000_0000

  predicate IsBlock(b: seq<int>) {
    |b| == 512 && forall i | 0 <= i < 512 :: 0 <= b[i] < 256
  }

  function ZeroBlock(): (b: seq<int>) { seq(512, i => 0) }

  // ----- 32-bit words -----

  function Word(b: seq<int>, j: int): int
    requires |b| == 512 && 0 <= j < 128
  {
    b[4 * j] + 256 * b[4 * j + 1] + 65536 * b[4 * j + 2] + 16777216 * b[4 * j + 3]
  }

  function PutWord(b: seq<int>, j: int, w: int): (r: seq<int>)
    requires |b| == 512 && 0 <= j < 128
    ensures |r| == 512
  {
    b[4 * j := w % 256][4 * j + 1 := w / 256 % 256][4 * j + 2 := w / 65536 % 256][4 * j + 3 := w / 16777216]
  }

  lemma PutWordBlock(b: seq<int>, j: int, w: int)
    requires IsBlock(b) && 0 <= j < 128 && 0 <= w < U32
    ensures IsBlock(PutWord(b, j, w))
  {
  }

  lemma WordOfPut(b: seq<int>, j: int, w: int, k: int)
    requires |b| == 512 && 0 <= j < 128 && 0 <= k < 128 && 0 <= w < U32
    ensures Word(PutWord(b, j, w), k) == if k == j then w else Word(b, k)
  {
    if k == j {
      Digits(w);
    }
  }

  lemma Digits(w: int)
    requires 0 <= w < U32
    ensures w % 256 + 256 * (w / 256 % 256) + 65536 * (w / 65536 % 256) + 16777216 * (w / 16777216) == w
  {
    assert w / 65536 == w / 256 / 256;
    assert w / 16777216 == w / 65536 / 256;
  }

  lemma ZeroWord(j: int)
    requires 0 <= j < 128
    ensures Word(ZeroBlock(), j) == 0 && IsBlock(ZeroBlock())
  {
  }

  // ----- bits -----

  /** `x & (1 << k)`, as a truth value. */
  predicate Bit(x: int, k: nat)
    decreases k
  {
    if k == 0 then x % 2 == 1 else Bit(x / 2, k - 1)
  }

  /** `x | (1 << k)` or, with `on` false, `x & ~(1 << k)`. */
  function PutBit(x: int, k: nat, on: bool): int
    decreases k
  {
    if k == 0 then x / 2 * 2 + (if on then 1 else 0) else 2 * PutBit(x / 2, k - 1, on) + x % 2
  }

  lemma {:induction false} BitOfPut(x: int, k: nat, on: bool, j: nat)
    ensures Bit(PutBit(x, k, on), j) == if j == k then on else Bit(x, j)
    decreases k
  {
    if k > 0 && j > 0 {
      BitOfPut(x / 2, k - 1, on, j - 1);
    }
  }

  lemma Halve(x: int, p: int)
    requires 0 <= x < 2 * p
    ensures 0 <= x / 2 < p
    ensures forall y | 0 <= y < p :: 0 <= 2 * y + x % 2 < 2 * p
    ensures 0 <= x / 2 * 2 && x / 2 * 2 + 1 < 2 * p
  {
  }

  function Pow2(n: nat): int { if n == 0 then 1 else 2 * Pow2(n - 1) }

  lemma {:induction false} PutBitRange(x: int, k: nat, on: bool, n: nat)
    requires 0 <= x < Pow2(n) && k < n
    ensures 0 <= PutBit(x, k, on) < Pow2(n)
    decreases k
  {
    Halve(x, Pow2(n - 1));
    if k > 0 {
      PutBitRange(x / 2, k - 1, on, n - 1);
    }
  }

  lemma PutBitByte(x: int, k: nat, on: bool)
    requires 0 <= x < 256 && k < 8
    ensures 0 <= PutBit(x, k, on) < 256
  {
    assert Pow2(8) == 256 by {
      assert Pow2(4) == 16;
    }
    PutBitRange(x, k, on, 8);
  }
}
