/** The free map: one bit per disk block, in bitmap blocks of BPB bits; bit
    bi of a block is bit bi % 8 of its byte bi / 8. */
module Bitmap {

  const BPB: nat := 8192  // BSIZE * 8

  type MapBlock = b: seq<bool> | |b| == BPB witness seq(BPB, _ => false)
  type Bitmap = seq<MapBlock>

  predicate Covers(m: Bitmap, size: nat) {
    size <= |m| * BPB
  }

  predicate Bit(m: Bitmap, b: nat)
    requires b < |m| * BPB
  {
    m[b / BPB][b % BPB]
  }

  function PutBit(m: Bitmap, b: nat, v: bool): (r: Bitmap)
    requires b < |m| * BPB
    ensures |r| == |m| && forall c :: 0 <= c < |m| * BPB ==> Bit(r, c) == if c == b then v else Bit(m, c)
  {
    m[b / BPB := m[b / BPB][b % BPB := v]]
  }

  // The search loops of balloc over the blocks of a disk of the given size.
  method FirstClear(m: Bitmap, size: nat) returns (b: nat)
    requires Covers(m, size)
    ensures b <= size && (b < size ==> !Bit(m, b)) && forall c :: 0 <= c < b ==> Bit(m, c)
  {
    b := 0;
    while b < size
      invariant 0 <= b && b % BPB == 0 && forall c :: 0 <= c < b && c < size ==> Bit(m, c)
    {
      var data := m[b / BPB];
      var bi := 0;
      while bi < BPB && b + bi < size
        invariant 0 <= bi <= BPB && forall c :: 0 <= c < b + bi && c < size ==> Bit(m, c)
      {
        assert Bit(m, b + bi) == data[bi];
        if !data[bi] {
          return b + bi;
        }
        bi := bi + 1;
      }
      b := b + BPB;
    }
    b := size;
  }
}
