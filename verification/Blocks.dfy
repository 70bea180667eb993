/** Disk blocks as byte arrays, and the view of a block as an array of
    32-bit little-endian words that the log header and the indirect
    blocks take of it. */
module Blocks {

  const BSIZE: nat := 1024
  const WORDS: nat := 256  // BSIZE / sizeof(uint)
  const UINT: nat := 0x1_0000_0000
  const MAXOPBLOCKS: nat := 10  // what one file-system operation may log

  type byte = x: int | 0 <= x < 256
  type uint = x: int | 0 <= x < UINT
  type Block = b: seq<byte> | |b| == BSIZE witness seq(BSIZE, _ => 0)
  type Disk = seq<Block>

  const ZeroBlock: Block := seq(BSIZE, _ => 0)

  // Word i of the block.
  function Word(b: Block, i: nat): uint
    requires i < WORDS
  {
    b[4 * i] as int + 0x100 * b[4 * i + 1] as int + 0x1_0000 * b[4 * i + 2] as int + 0x100_0000 * b[4 * i + 3] as int
  }

  // The bytes of a word make up the word.
  lemma Digits(v: uint)
    ensures v == v % 0x100 + 0x100 * (v / 0x100 % 0x100) + 0x1_0000 * (v / 0x1_0000 % 0x100)
                 + 0x100_0000 * (v / 0x100_0000)
    ensures v / 0x100_0000 < 0x100
  {
    var a := v / 0x100;
    var b := a / 0x100;
    assert v / 0x1_0000 == b && v / 0x100_0000 == b / 0x100;
  }

  // The block with v as its word i.
  function SetWord(b: Block, i: nat, v: uint): (r: Block)
    requires i < WORDS
    ensures forall j :: 0 <= j < WORDS ==> Word(r, j) == if j == i then v else Word(b, j)
  {
    Digits(v);
    var r := b[4 * i := v % 0x100][4 * i + 1 := v / 0x100 % 0x100]
              [4 * i + 2 := v / 0x1_0000 % 0x100][4 * i + 3 := v / 0x100_0000];
    assert Word(r, i) == v;
    assert forall k :: 0 <= k < BSIZE && !(4 * i <= k < 4 * i + 4) ==> r[k] == b[k];
    r
  }
}
