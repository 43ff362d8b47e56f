/** The free-block bitmap: one bit per block, eight to a byte, 8192 to a bitmap block, and the set of
    blocks it stands for. */
module Bitmap {
  import opened Words

  const BPB: nat := 8192
  const IPB: nat := 16

  /** Where the super block says things are; `datastart` is the first block after the bitmap. */
  datatype Super = Super(size: nat, ninodes: nat, inodestart: nat, bmapstart: nat, datastart: nat)

  predicate GoodSuper(sb: Super) {
    && 0 < sb.inodestart && sb.inodestart + sb.ninodes / IPB < sb.bmapstart
    && sb.bmapstart + sb.size / BPB < sb.datastart <= sb.size <= 0x1_0000_0000
  }

  /** The block holding inode `i`. */
  function InodeBlock(sb: Super, i: nat): nat {
    i / IPB + sb.inodestart
  }

  /** The bitmap block holding the bit of block `b`. */
  function BitBlock(sb: Super, b: nat): nat {
    b / BPB + sb.bmapstart
  }

  // ----- bits of a byte -----

  /** `1 << k`. */
  function Mask(k: nat): (m: nat)
    ensures 0 < m
  {
    if k == 0 then 1 else 2 * Mask(k - 1)
  }

  /** Whether `x & (1 << k)` is nonzero. */
  predicate TestBit(x: nat, k: nat) {
    if k == 0 then x % 2 == 1 else TestBit(x / 2, k - 1)
  }

  /** `x & ~(1 << k)` when the bit is set, `x | (1 << k)` when it is clear. */
  function Flip(x: nat, k: nat): int {
    if TestBit(x, k) then x - Mask(k) else x + Mask(k)
  }

  lemma {:induction false} FlipHalf(x: nat, k: nat)
    requires k > 0
    ensures Flip(x, k) == x % 2 + 2 * Flip(x / 2, k - 1)
  {
  }

  /** Flipping a bit of an `n`-bit number stays within `n` bits and changes only that bit. */
  lemma {:induction false} FlipFits(x: nat, k: nat, n: nat)
    requires k < n && x < Mask(n)
    ensures 0 <= Flip(x, k) < Mask(n)
  {
    if k > 0 {
      FlipFits(x / 2, k - 1, n - 1);
      FlipHalf(x, k);
    }
  }

  lemma {:induction false} FlipAt(x: nat, k: nat, j: nat)
    requires 0 <= Flip(x, k)
    ensures TestBit(Flip(x, k), j) == if j == k then !TestBit(x, k) else TestBit(x, j)
  {
    if k > 0 {
      FlipHalf(x, k);
      if j > 0 {
        FlipAt(x / 2, k - 1, j - 1);
      }
    }
  }

  function FlipByte(x: Byte, k: nat): (r: Byte)
    requires k < 8
  {
    MaskByte();
    FlipFits(x, k, 8);
    Flip(x, k)
  }

  lemma MaskByte()
    ensures Mask(8) == 256
  {
    assert Mask(4) == 16;
  }

  // ----- bits of a bitmap block -----

  predicate BitIn(block: Block, bi: nat)
    requires bi < BPB
  {
    TestBit(block.bytes[bi / 8], bi % 8)
  }

  function FlipIn(block: Block, bi: nat): Block
    requires bi < BPB
  {
    Block(block.bytes[bi / 8 := FlipByte(block.bytes[bi / 8], bi % 8)])
  }

  lemma FlipInAt(block: Block, bi: nat, bj: nat)
    requires bi < BPB && bj < BPB
    ensures BitIn(FlipIn(block, bi), bj) == if bj == bi then !BitIn(block, bi) else BitIn(block, bj)
  {
    if bi / 8 == bj / 8 {
      assert 0 <= FlipByte(block.bytes[bi / 8], bi % 8);
      FlipAt(block.bytes[bi / 8], bi % 8, bj % 8);
    }
  }

  // ----- the whole bitmap -----

  predicate InUse(sb: Super, blocks: seq<Block>, b: nat)
    requires GoodSuper(sb) && |blocks| == sb.size && b < sb.size
  {
    BitIn(blocks[BitBlock(sb, b)], b % BPB)
  }

  predicate Taken(sb: Super, used: set<nat>, b: nat) {
    b < sb.datastart || b in used
  }

  /** The set bits are exactly those of the blocks before the data area and those of `used`. */
  predicate Marks(sb: Super, blocks: seq<Block>, used: set<nat>) {
    && GoodSuper(sb) && |blocks| == sb.size
    && forall b: nat | b < sb.size :: InUse(sb, blocks, b) == Taken(sb, used, b)
  }

  /** Only blocks of the data area differ from `blocks` in `blocks'`. */
  predicate SameMeta(sb: Super, blocks: seq<Block>, blocks': seq<Block>) {
    && |blocks| == |blocks'| == sb.size && sb.datastart <= sb.size
    && forall b: nat | b < sb.datastart :: blocks'[b] == blocks[b]
  }

  lemma MarksKept(sb: Super, blocks: seq<Block>, blocks': seq<Block>, used: set<nat>)
    requires Marks(sb, blocks, used) && SameMeta(sb, blocks, blocks')
    ensures Marks(sb, blocks', used)
  {
    forall b: nat | b < sb.size
      ensures InUse(sb, blocks', b) == Taken(sb, used, b)
    {
      assert InUse(sb, blocks, b) == Taken(sb, used, b);
    }
  }

  /** Flipping one bit adds a free block to the used ones, or takes a used one away. */
  lemma FlipMarks(sb: Super, blocks: seq<Block>, blocks': seq<Block>, used: set<nat>, b: nat)
    requires Marks(sb, blocks, used) && sb.datastart <= b < sb.size
    requires blocks' == blocks[BitBlock(sb, b) := FlipIn(blocks[BitBlock(sb, b)], b % BPB)]
    ensures Marks(sb, blocks', if b in used then used - {b} else used + {b})
  {
    hide BitIn, FlipIn;
    forall c: nat | c < sb.size
      ensures InUse(sb, blocks', c) == Taken(sb, if b in used then used - {b} else used + {b}, c)
    {
      assert InUse(sb, blocks, c) == Taken(sb, used, c);
      if c / BPB == b / BPB {
        FlipInAt(blocks[BitBlock(sb, b)], b % BPB, c % BPB);
      }
    }
  }

  // ----- a fresh bitmap -----

  /** Exactly the first `n` blocks are marked. */
  predicate MarkedTo(sb: Super, blocks: seq<Block>, n: nat) {
    GoodSuper(sb) && |blocks| == sb.size && forall c: nat | c < sb.size :: InUse(sb, blocks, c) == (c < n)
  }

  lemma NoneInUse(sb: Super, blocks: seq<Block>)
    requires GoodSuper(sb) && |blocks| == sb.size && forall b | 0 <= b < |blocks| :: blocks[b] == ZERO_BLOCK
    ensures MarkedTo(sb, blocks, 0)
  {
    forall c: nat | c < sb.size
      ensures !InUse(sb, blocks, c)
    {
      NoBits(c % BPB % 8);
    }
  }

  lemma {:induction false} NoBits(k: nat)
    ensures !TestBit(0, k)
  {
    if k > 0 {
      NoBits(k - 1);
    }
  }

  lemma MarkNext(sb: Super, blocks: seq<Block>, b: nat)
    requires MarkedTo(sb, blocks, b) && b < sb.size
    ensures MarkedTo(sb, blocks[BitBlock(sb, b) := FlipIn(blocks[BitBlock(sb, b)], b % BPB)], b + 1)
  {
    hide BitIn, FlipIn;
    var blocks' := blocks[BitBlock(sb, b) := FlipIn(blocks[BitBlock(sb, b)], b % BPB)];
    forall c: nat | c < sb.size
      ensures InUse(sb, blocks', c) == (c < b + 1)
    {
      assert InUse(sb, blocks, c) == (c < b);
      if c / BPB == b / BPB {
        FlipInAt(blocks[BitBlock(sb, b)], b % BPB, c % BPB);
      }
    }
  }
}
