/** Disk blocks as byte strings, and the 32-bit little-endian words that the
    kernel stores in them (log header fields, indirect block numbers). */
module Blocks {
  const BSIZE: nat := 1024

  type Byte = b: nat | b < 0x100

  type Word = w: nat | w < 0x1_0000_0000

  type Block = b: seq<Byte> | |b| == BSIZE witness seq(BSIZE, i => 0)

  function ZeroBlock(): Block { seq(BSIZE, i => 0) }

  type DiskMap = map<nat, Block>

  const WORDS_PER_BLOCK: nat := 256

  /** The k-th word of a block, read through a cast to `uint*`. */
  function GetWord(b: Block, k: nat): Word
    requires k < WORDS_PER_BLOCK
  {
    var b0: int, b1: int, b2: int, b3: int := b[4 * k], b[4 * k + 1], b[4 * k + 2], b[4 * k + 3];
    b0 + 0x100 * b1 + 0x1_0000 * b2 + 0x100_0000 * b3
  }

  function SetWord(b: Block, k: nat, w: Word): (r: Block)
    requires k < WORDS_PER_BLOCK
  {
    b[4 * k := w % 0x100]
     [4 * k + 1 := w / 0x100 % 0x100]
     [4 * k + 2 := w / 0x1_0000 % 0x100]
     [4 * k + 3 := w / 0x100_0000]
  }

  lemma WordBytes(w: int)
    requires 0 <= w < 0x1_0000_0000
    ensures w == w % 0x100 + 0x100 * (w / 0x100 % 0x100) + 0x1_0000 * (w / 0x1_0000 % 0x100)
            + 0x100_0000 * (w / 0x100_0000)
  {
    assert w / 0x1_0000 == w / 0x100 / 0x100;
    assert w / 0x100_0000 == w / 0x1_0000 / 0x100;
  }

  /** A stored word reads back, and no other word of the block changes. */
  lemma WordRoundTrip(b: Block, k: nat, w: Word)
    requires k < WORDS_PER_BLOCK
    ensures GetWord(SetWord(b, k, w), k) == w
    ensures forall j: nat | j < WORDS_PER_BLOCK && j != k :: GetWord(SetWord(b, k, w), j) == GetWord(b, j)
  {
    var c := SetWord(b, k, w);
    WordBytes(w);
    forall j: nat | j < WORDS_PER_BLOCK && j != k
      ensures GetWord(c, j) == GetWord(b, j)
    {
      assert c[4 * j] == b[4 * j] && c[4 * j + 1] == b[4 * j + 1];
      assert c[4 * j + 2] == b[4 * j + 2] && c[4 * j + 3] == b[4 * j + 3];
    }
  }
}
