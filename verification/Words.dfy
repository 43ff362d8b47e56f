/** Disk blocks as bytes, with the little-endian 32-bit words the kernel overlays on them. */
module Words {
  const BSIZE := 1024
  const WORDS_PER_BLOCK := 256

  /** The most blocks one file-system operation may log. */
  const MAXOPBLOCKS := 10

  type Byte = x: int | 0 <= x < 256
  type Word = x: int | 0 <= x < 0x1_0000_0000

  type Bytes = s: seq<Byte> | |s| == BSIZE witness seq(BSIZE, _ => 0)

  /** One disk block. */
  datatype Block = Block(bytes: Bytes)

  function AllBytes(x: Byte): Block {
    Block(seq(BSIZE, _ => x))
  }

  const ZERO_BLOCK: Block := AllBytes(0)

  /** Byte `k` of a word, least significant first. */
  function WordByte(v: Word, k: nat): Byte
    requires k < 4
  {
    if k == 0 then v % 0x100
    else if k == 1 then v / 0x100 % 0x100
    else if k == 2 then v / 0x1_0000 % 0x100
    else v / 0x100_0000
  }

  /** The `i`th 32-bit word of a block. */
  function ReadWord(b: Block, i: nat): Word
    requires i < WORDS_PER_BLOCK
  {
    var s := b.bytes;
    var b0: int, b1: int, b2: int, b3: int := s[4 * i], s[4 * i + 1], s[4 * i + 2], s[4 * i + 3];
    b0 + 0x100 * b1 + 0x1_0000 * b2 + 0x100_0000 * b3
  }

  /** A word is read back from its four bytes. */
  lemma WordBytes(v: Word)
    ensures v == WordByte(v, 0) + 0x100 * WordByte(v, 1) + 0x1_0000 * WordByte(v, 2) + 0x100_0000 * WordByte(v, 3)
  {
    assert v / 0x1_0000 == v / 0x100 / 0x100;
    assert v / 0x100_0000 == v / 0x1_0000 / 0x100;
  }

  lemma ReadsBack(b: Block, i: nat, v: Word)
    requires i < WORDS_PER_BLOCK && forall k: nat | k < 4 :: b.bytes[4 * i + k] == WordByte(v, k)
    ensures ReadWord(b, i) == v
  {
    WordBytes(v);
    assert b.bytes[4 * i + 0] == WordByte(v, 0);
  }

  function WrittenByte(b: Block, i: nat, v: Word, j: nat): Byte
    requires i < WORDS_PER_BLOCK && j < BSIZE
  {
    if 4 * i <= j < 4 * i + 4 then WordByte(v, j - 4 * i) else b.bytes[j]
  }

  /** The block after storing `v` in its `i`th 32-bit word. */
  function WriteWord(b: Block, i: nat, v: Word): (r: Block)
    requires i < WORDS_PER_BLOCK
    ensures ReadWord(r, i) == v
    ensures forall j | 0 <= j < WORDS_PER_BLOCK && j != i :: ReadWord(r, j) == ReadWord(b, j)
  {
    var r := Block(seq(BSIZE, (j: nat) requires j < BSIZE => WrittenByte(b, i, v, j)));
    ReadsBack(r, i, v);
    r
  }

  lemma ZeroWords(i: nat)
    requires i < WORDS_PER_BLOCK
    ensures ReadWord(ZERO_BLOCK, i) == 0
  {
  }
}
