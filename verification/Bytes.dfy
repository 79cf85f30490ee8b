/** Bits of a byte and little-endian 32-bit words, as the file system's bitmap
    and indirect blocks hold them. */
module Bytes {
  // 1 << k
  function Mask(k: nat): nat { if k == 0 then 1 else 2 * Mask(k - 1) }

  // Bit k of b.
  predicate Bit(b: nat, k: nat) { if k == 0 then b % 2 == 1 else Bit(b / 2, k - 1) }

  predicate IsByte(b: int) { 0 <= b < 256 }

  // b | 1 << k
  function SetBit(b: nat, k: nat): nat { if Bit(b, k) then b else b + Mask(k) }

  lemma {:induction false} MaskFits(b: nat, k: nat)
    ensures Bit(b, k) ==> Mask(k) <= b
  {
    if k > 0 { MaskFits(b / 2, k - 1); }
  }

  // b & ~(1 << k)
  function ClearBit(b: nat, k: nat): nat {
    MaskFits(b, k);
    if Bit(b, k) then b - Mask(k) else b
  }

  lemma {:induction false} SetBits(b: nat, k: nat, j: nat, n: nat)
    requires b < Mask(n) && k < n
    ensures SetBit(b, k) < Mask(n) && Bit(SetBit(b, k), j) == (j == k || Bit(b, j))
  {
    if k > 0 {
      SetBits(b / 2, k - 1, if j == 0 then 0 else j - 1, n - 1);
      assert SetBit(b, k) / 2 == SetBit(b / 2, k - 1) && SetBit(b, k) % 2 == b % 2;
    } else {
      assert SetBit(b, 0) / 2 == b / 2;
    }
  }

  lemma {:induction false} ClearBits(b: nat, k: nat, j: nat)
    ensures ClearBit(b, k) <= b && Bit(ClearBit(b, k), j) == (j != k && Bit(b, j))
  {
    MaskFits(b, k);
    if k > 0 {
      ClearBits(b / 2, k - 1, if j == 0 then 0 else j - 1);
      assert ClearBit(b, k) / 2 == ClearBit(b / 2, k - 1) && ClearBit(b, k) % 2 == b % 2;
    } else {
      assert ClearBit(b, 0) / 2 == b / 2;
    }
  }

  predicate IsWord(w: int) { 0 <= w < 0x1_0000_0000 }

  predicate AllBytes(b: seq<int>) { forall i :: 0 <= i < |b| ==> IsByte(b[i]) }

  // The i-th 32-bit word of a block.
  function WordAt(b: seq<int>, i: nat): int
    requires 4 * i + 4 <= |b|
  {
    b[4 * i] + 256 * b[4 * i + 1] + 65536 * b[4 * i + 2] + 0x100_0000 * b[4 * i + 3]
  }

  function PutWord(b: seq<int>, i: nat, w: int): seq<int>
    requires 4 * i + 4 <= |b|
  {
    b[4 * i := w % 256][4 * i + 1 := w / 256 % 256][4 * i + 2 := w / 65536 % 256][4 * i + 3 := w / 0x100_0000 % 256]
  }

  lemma SplitWord(w: int)
    requires IsWord(w)
    ensures w % 256 + 256 * (w / 256 % 256) + 65536 * (w / 65536 % 256) + 0x100_0000 * (w / 0x100_0000 % 256) == w
  {
    assert w == 256 * (w / 256) + w % 256;
    assert w / 256 == 256 * (w / 65536) + w / 256 % 256;
    assert w / 65536 == 256 * (w / 0x100_0000) + w / 65536 % 256;
  }

  /** A word written is read back, and the others are as they were. */
  lemma PutWordReads(b: seq<int>, i: nat, w: int, j: nat)
    requires AllBytes(b) && IsWord(w) && 4 * i + 4 <= |b| && 4 * j + 4 <= |b|
    ensures |PutWord(b, i, w)| == |b| && AllBytes(PutWord(b, i, w))
    ensures WordAt(PutWord(b, i, w), j) == if j == i then w else WordAt(b, j)
  {
    SplitWord(w);
  }
}
