/** Which block every pointer of every inode names, who owns each block, and what data the
    pointers reach. */
module Inodes {
  import opened Words
  import opened Bitmap

  const NDIRECT: nat := 12
  const NINDIRECT: nat := 256
  const MAXFILE: nat := 268
  const MAXBYTES: nat := 274432

  /** An inode's pointer slots: the direct ones, the indirect block's, and that block's entries. */
  const NSLOTS: nat := 269

  type Addrs = s: seq<Word> | |s| == 13 witness seq(13, _ => 0)

  datatype Inode = Inode(kind: nat, nlink: nat, size: nat, addrs: Addrs, ref: nat, valid: bool)

  datatype Slot = Slot(i: nat, j: nat)

  const NO_ADDRS: Addrs := [0, 0, 0, 0, 0, 0, 0, 0, 0, 0, 0, 0, 0]

  /** Entry `k` of the indirect block at `a`. */
  function Entry(blocks: seq<Block>, a: Word, k: nat): Word
    requires k < NINDIRECT
  {
    if 0 < a < |blocks| then ReadWord(blocks[a], k) else 0
  }

  function Ptr(blocks: seq<Block>, ip: Inode, j: nat): Word
    requires j < NSLOTS
  {
    if j <= NDIRECT then ip.addrs[j] else Entry(blocks, ip.addrs[NDIRECT], j - NDIRECT - 1)
  }

  lemma DirectPtr(blocks: seq<Block>, ip: Inode, j: nat)
    requires j <= NDIRECT
    ensures Ptr(blocks, ip, j) == ip.addrs[j]
  {
  }

  lemma NoEntries(blocks: seq<Block>, ip: Inode)
    requires ip.addrs[NDIRECT] == 0
    ensures forall j: nat | NDIRECT <= j < NSLOTS :: Ptr(blocks, ip, j) == 0
  {
  }

  // ----- ownership -----

  predicate PtrOk(blocks: seq<Block>, inodes: seq<Inode>, owner: map<nat, Slot>, i: nat, j: nat)
    requires i < |inodes| && j < NSLOTS
  {
    var b := Ptr(blocks, inodes[i], j);
    b != 0 ==> b in owner && owner[b] == Slot(i, j)
  }

  predicate OwnerOk(sb: Super, blocks: seq<Block>, inodes: seq<Inode>, owner: map<nat, Slot>, b: nat)
    requires b in owner
  {
    var s := owner[b];
    sb.datastart <= b < sb.size && s.i < |inodes| && s.j < NSLOTS && Ptr(blocks, inodes[s.i], s.j) == b
  }

  /** `owner` maps exactly the blocks pointed to, each to the one slot that points to it. */
  predicate Pointers(sb: Super, blocks: seq<Block>, inodes: seq<Inode>, owner: map<nat, Slot>) {
    && GoodSuper(sb) && |blocks| == sb.size
    && (forall i: nat, j: nat | i < |inodes| && j < NSLOTS :: PtrOk(blocks, inodes, owner, i, j))
    && forall b: nat | b in owner :: OwnerOk(sb, blocks, inodes, owner, b)
  }

  lemma PtrOwned(sb: Super, blocks: seq<Block>, inodes: seq<Inode>, owner: map<nat, Slot>, i: nat, j: nat)
    requires Pointers(sb, blocks, inodes, owner) && i < |inodes| && j < NSLOTS && Ptr(blocks, inodes[i], j) != 0
    ensures var b := Ptr(blocks, inodes[i], j); b in owner && owner[b] == Slot(i, j) && sb.datastart <= b < sb.size
  {
    assert PtrOk(blocks, inodes, owner, i, j);
    assert OwnerOk(sb, blocks, inodes, owner, Ptr(blocks, inodes[i], j));
  }

  lemma OwnedInData(sb: Super, blocks: seq<Block>, inodes: seq<Inode>, owner: map<nat, Slot>)
    requires Pointers(sb, blocks, inodes, owner)
    ensures GoodSuper(sb) && |blocks| == sb.size
    ensures forall b: nat | b in owner :: sb.datastart <= b < sb.size
  {
    forall b: nat | b in owner
      ensures sb.datastart <= b < sb.size
    {
      assert OwnerOk(sb, blocks, inodes, owner, b);
    }
  }

  /** Blocks that are not indirect blocks may change without moving any pointer. */
  predicate SameIndirect(owner: map<nat, Slot>, blocks: seq<Block>, blocks': seq<Block>) {
    && |blocks| == |blocks'|
    && forall b: nat | b in owner && owner[b].j == NDIRECT && b < |blocks| :: blocks'[b] == blocks[b]
  }

  lemma PtrFrame(sb: Super, blocks: seq<Block>, blocks': seq<Block>, inodes: seq<Inode>, owner: map<nat, Slot>, i: nat,
                 j: nat)
    requires Pointers(sb, blocks, inodes, owner) && SameIndirect(owner, blocks, blocks') && i < |inodes| && j < NSLOTS
    ensures Ptr(blocks', inodes[i], j) == Ptr(blocks, inodes[i], j)
  {
    if inodes[i].addrs[NDIRECT] != 0 {
      PtrOwned(sb, blocks, inodes, owner, i, NDIRECT);
    }
  }

  lemma PointersFrame(sb: Super, blocks: seq<Block>, blocks': seq<Block>, inodes: seq<Inode>, owner: map<nat, Slot>)
    requires Pointers(sb, blocks, inodes, owner) && SameIndirect(owner, blocks, blocks')
    ensures Pointers(sb, blocks', inodes, owner)
  {
    hide Ptr;
    forall i: nat, j: nat | i < |inodes| && j < NSLOTS
      ensures PtrOk(blocks', inodes, owner, i, j)
    {
      PtrFrame(sb, blocks, blocks', inodes, owner, i, j);
      assert PtrOk(blocks, inodes, owner, i, j);
    }
    forall b: nat | b in owner
      ensures OwnerOk(sb, blocks', inodes, owner, b)
    {
      assert OwnerOk(sb, blocks, inodes, owner, b);
      PtrFrame(sb, blocks, blocks', inodes, owner, owner[b].i, owner[b].j);
    }
  }

  // ----- data -----

  function SlotOf(n: nat): nat {
    if n < NDIRECT then n else n + 1
  }

  function BlockAt(blocks: seq<Block>, b: Word): Block {
    if 0 < b < |blocks| then blocks[b] else ZERO_BLOCK
  }

  /** Block `n` of file `i`; an unmapped block counts as zeros. */
  function DataAt(blocks: seq<Block>, inodes: seq<Inode>, i: nat, n: nat): Block
    requires i < |inodes| && n < MAXFILE
  {
    BlockAt(blocks, Ptr(blocks, inodes[i], SlotOf(n)))
  }

  /** Byte `k` of file `i`. */
  function ByteAt(blocks: seq<Block>, inodes: seq<Inode>, i: nat, k: nat): Byte
    requires i < |inodes| && k < MAXBYTES
  {
    DataAt(blocks, inodes, i, k / BSIZE).bytes[k % BSIZE]
  }

  /** File `i` as the byte sequence it stands for. */
  function FileBytes(blocks: seq<Block>, inodes: seq<Inode>, i: nat): seq<Byte>
    requires i < |inodes| && inodes[i].size <= MAXBYTES
  {
    seq(inodes[i].size, (k: nat) requires k < inodes[i].size => ByteAt(blocks, inodes, i, k))
  }

  predicate Mapped(blocks: seq<Block>, inodes: seq<Inode>, i: nat, n: nat)
    requires i < |inodes| && n < MAXFILE
  {
    Ptr(blocks, inodes[i], SlotOf(n)) != 0
  }

  /** No holes: every block below the size is mapped. */
  predicate NoHoles(blocks: seq<Block>, inodes: seq<Inode>, i: nat)
    requires i < |inodes|
  {
    && inodes[i].size <= MAXBYTES
    && forall n: nat | n < MAXFILE && n * BSIZE < inodes[i].size :: Mapped(blocks, inodes, i, n)
  }

  // ----- allocation never moves a pointer nor changes any file's data -----

  predicate MetaKept(inodes: seq<Inode>, inodes': seq<Inode>, i: nat)
    requires i < |inodes| == |inodes'|
  {
    inodes'[i] == inodes[i].(addrs := inodes'[i].addrs)
  }

  predicate PtrKept(blocks: seq<Block>, inodes: seq<Inode>, blocks': seq<Block>, inodes': seq<Inode>, i: nat, j: nat)
    requires i < |inodes| == |inodes'| && j < NSLOTS
  {
    Ptr(blocks, inodes[i], j) != 0 ==> Ptr(blocks', inodes'[i], j) == Ptr(blocks, inodes[i], j)
  }

  predicate DataKept(blocks: seq<Block>, inodes: seq<Inode>, blocks': seq<Block>, inodes': seq<Inode>, i: nat, n: nat)
    requires i < |inodes| == |inodes'| && n < MAXFILE
  {
    DataAt(blocks', inodes', i, n) == DataAt(blocks, inodes, i, n)
  }

  predicate Grows(blocks: seq<Block>, inodes: seq<Inode>, blocks': seq<Block>, inodes': seq<Inode>) {
    && |inodes| == |inodes'| && |blocks| == |blocks'|
    && (forall i: nat | i < |inodes| :: MetaKept(inodes, inodes', i))
    && (forall i: nat, j: nat | i < |inodes| && j < NSLOTS :: PtrKept(blocks, inodes, blocks', inodes', i, j))
    && forall i: nat, n: nat | i < |inodes| && n < MAXFILE :: DataKept(blocks, inodes, blocks', inodes', i, n)
  }

  lemma GrowsRefl(blocks: seq<Block>, inodes: seq<Inode>)
    ensures Grows(blocks, inodes, blocks, inodes)
  {
  }

  lemma GrowsTrans(b0: seq<Block>, i0: seq<Inode>, b1: seq<Block>, i1: seq<Inode>, b2: seq<Block>, i2: seq<Inode>)
    requires Grows(b0, i0, b1, i1) && Grows(b1, i1, b2, i2)
    ensures Grows(b0, i0, b2, i2)
  {
    hide Ptr, DataAt;
    forall i: nat | i < |i0|
      ensures MetaKept(i0, i2, i)
    {
      assert MetaKept(i0, i1, i) && MetaKept(i1, i2, i);
    }
    forall i: nat, j: nat | i < |i0| && j < NSLOTS
      ensures PtrKept(b0, i0, b2, i2, i, j)
    {
      assert PtrKept(b0, i0, b1, i1, i, j) && PtrKept(b1, i1, b2, i2, i, j);
    }
    forall i: nat, n: nat | i < |i0| && n < MAXFILE
      ensures DataKept(b0, i0, b2, i2, i, n)
    {
      assert DataKept(b0, i0, b1, i1, i, n) && DataKept(b1, i1, b2, i2, i, n);
    }
  }

  lemma GrowsNoHoles(blocks: seq<Block>, inodes: seq<Inode>, blocks': seq<Block>, inodes': seq<Inode>, i: nat)
    requires Grows(blocks, inodes, blocks', inodes') && i < |inodes| && NoHoles(blocks, inodes, i)
    ensures NoHoles(blocks', inodes', i)
  {
    hide Ptr;
    assert MetaKept(inodes, inodes', i);
    forall n: nat | n < MAXFILE && n * BSIZE < inodes'[i].size
      ensures Mapped(blocks', inodes', i, n)
    {
      assert Mapped(blocks, inodes, i, n);
      assert PtrKept(blocks, inodes, blocks', inodes', i, SlotOf(n));
    }
  }

  /** Changing only blocks nobody owns. */
  lemma UnownedGrows(sb: Super, blocks: seq<Block>, blocks': seq<Block>, inodes: seq<Inode>, owner: map<nat, Slot>)
    requires Pointers(sb, blocks, inodes, owner) && |blocks'| == |blocks|
    requires forall b: nat | b in owner && b < |blocks| :: blocks'[b] == blocks[b]
    ensures Pointers(sb, blocks', inodes, owner) && Grows(blocks, inodes, blocks', inodes)
  {
    PointersFrame(sb, blocks, blocks', inodes, owner);
    hide Ptr;
    forall i: nat, j: nat | i < |inodes| && j < NSLOTS
      ensures PtrKept(blocks, inodes, blocks', inodes, i, j)
    {
      PtrFrame(sb, blocks, blocks', inodes, owner, i, j);
    }
    forall i: nat, n: nat | i < |inodes| && n < MAXFILE
      ensures DataKept(blocks, inodes, blocks', inodes, i, n)
    {
      PtrFrame(sb, blocks, blocks', inodes, owner, i, SlotOf(n));
      if Ptr(blocks, inodes[i], SlotOf(n)) != 0 {
        PtrOwned(sb, blocks, inodes, owner, i, SlotOf(n));
      }
    }
  }

  /** Slot (`i`, `j`) now points to `b`; slot (`p`, `q`) is that one or as before. */
  predicate AttachedPtr(blocks: seq<Block>, inodes: seq<Inode>, blocks': seq<Block>, inodes': seq<Inode>, i: nat,
                        j: nat, b: Word, p: nat, q: nat)
    requires p < |inodes| == |inodes'| && q < NSLOTS
  {
    Ptr(blocks', inodes'[p], q) == if p == i && q == j then b else Ptr(blocks, inodes[p], q)
  }

  /** Block `b` is attached to the empty slot (`i`, `j`), and no data block changes. */
  predicate Attached(owner: map<nat, Slot>, blocks: seq<Block>, inodes: seq<Inode>, blocks': seq<Block>,
                     inodes': seq<Inode>, i: nat, j: nat, b: Word) {
    && |inodes'| == |inodes| && |blocks'| == |blocks| && i < |inodes| && j < NSLOTS && 0 < b < |blocks|
    && Ptr(blocks, inodes[i], j) == 0 && blocks'[b] == ZERO_BLOCK
    && (forall p: nat | p < |inodes| :: MetaKept(inodes, inodes', p))
    && (forall p: nat, q: nat | p < |inodes| && q < NSLOTS ::
          AttachedPtr(blocks, inodes, blocks', inodes', i, j, b, p, q))
    && forall c: nat | c in owner && c < |blocks| && owner[c].j != NDIRECT :: blocks'[c] == blocks[c]
  }

  lemma AttachedPointers(sb: Super, blocks: seq<Block>, inodes: seq<Inode>, blocks': seq<Block>, inodes': seq<Inode>,
                         owner: map<nat, Slot>, i: nat, j: nat, b: Word)
    requires Pointers(sb, blocks, inodes, owner) && Attached(owner, blocks, inodes, blocks', inodes', i, j, b)
    requires b !in owner && sb.datastart <= b < sb.size
    ensures Pointers(sb, blocks', inodes', owner[b := Slot(i, j)])
  {
    hide Ptr;
    var owner' := owner[b := Slot(i, j)];
    forall p: nat, q: nat | p < |inodes| && q < NSLOTS
      ensures PtrOk(blocks', inodes', owner', p, q)
    {
      assert AttachedPtr(blocks, inodes, blocks', inodes', i, j, b, p, q);
      assert PtrOk(blocks, inodes, owner, p, q);
    }
    forall c: nat | c in owner'
      ensures OwnerOk(sb, blocks', inodes', owner', c)
    {
      if c != b {
        assert OwnerOk(sb, blocks, inodes, owner, c);
      }
      assert AttachedPtr(blocks, inodes, blocks', inodes', i, j, b, owner'[c].i, owner'[c].j);
    }
  }

  lemma AttachedGrows(sb: Super, blocks: seq<Block>, inodes: seq<Inode>, blocks': seq<Block>, inodes': seq<Inode>,
                      owner: map<nat, Slot>, i: nat, j: nat, b: Word)
    requires Pointers(sb, blocks, inodes, owner) && Attached(owner, blocks, inodes, blocks', inodes', i, j, b)
    ensures Grows(blocks, inodes, blocks', inodes')
  {
    hide Ptr;
    forall p: nat, q: nat | p < |inodes| && q < NSLOTS
      ensures PtrKept(blocks, inodes, blocks', inodes', p, q)
    {
      assert AttachedPtr(blocks, inodes, blocks', inodes', i, j, b, p, q);
    }
    forall p: nat, n: nat | p < |inodes| && n < MAXFILE
      ensures DataKept(blocks, inodes, blocks', inodes', p, n)
    {
      assert AttachedPtr(blocks, inodes, blocks', inodes', i, j, b, p, SlotOf(n));
      if Ptr(blocks, inodes[p], SlotOf(n)) != 0 {
        PtrOwned(sb, blocks, inodes, owner, p, SlotOf(n));
      }
    }
  }

  /** A fresh zeroed block goes into an empty direct slot, or becomes the indirect block. */
  lemma AttachDirect(sb: Super, blocks: seq<Block>, inodes: seq<Inode>, inodes': seq<Inode>, owner: map<nat, Slot>,
                     i: nat, j: nat, b: Word)
    requires Pointers(sb, blocks, inodes, owner) && i < |inodes| && j <= NDIRECT && inodes[i].addrs[j] == 0
    requires sb.datastart <= b < sb.size && blocks[b] == ZERO_BLOCK
    requires inodes' == inodes[i := inodes[i].(addrs := inodes[i].addrs[j := b])]
    ensures Attached(owner, blocks, inodes, blocks, inodes', i, j, b)
  {
    forall p: nat, q: nat | p < |inodes| && q < NSLOTS
      ensures AttachedPtr(blocks, inodes, blocks, inodes', i, j, b, p, q)
    {
      if p == i && q > NDIRECT && j == NDIRECT {
        ZeroWords(q - NDIRECT - 1);
      }
    }
  }

  /** A fresh zeroed block goes into an empty entry of the indirect block. */
  lemma AttachEntry(sb: Super, blocks: seq<Block>, blocks': seq<Block>, inodes: seq<Inode>, owner: map<nat, Slot>,
                    i: nat, k: nat, b: Word)
    requires Pointers(sb, blocks, inodes, owner) && i < |inodes| && k < NINDIRECT
    requires inodes[i].addrs[NDIRECT] != 0 && Ptr(blocks, inodes[i], NDIRECT + 1 + k) == 0
    requires b !in owner && sb.datastart <= b < sb.size && blocks[b] == ZERO_BLOCK
    requires var a := inodes[i].addrs[NDIRECT]; a < |blocks| && blocks' == blocks[a := WriteWord(blocks[a], k, b)]
    ensures Attached(owner, blocks, inodes, blocks', inodes, i, NDIRECT + 1 + k, b)
  {
    var j := NDIRECT + 1 + k;
    PtrOwned(sb, blocks, inodes, owner, i, NDIRECT);
    forall p: nat, q: nat | p < |inodes| && q < NSLOTS
      ensures AttachedPtr(blocks, inodes, blocks', inodes, i, j, b, p, q)
    {
      if p != i && inodes[p].addrs[NDIRECT] != 0 {
        PtrOwned(sb, blocks, inodes, owner, p, NDIRECT);
      }
    }
  }

  // ----- freeing a file's blocks -----

  /** The owners left once the slots `done` of inode `i` have given up their blocks. */
  function Kept(owner: map<nat, Slot>, i: nat, done: set<nat>): map<nat, Slot> {
    map b | b in owner && !(owner[b].i == i && owner[b].j in done) :: owner[b]
  }

  lemma KeptNone(owner: map<nat, Slot>, i: nat)
    ensures Kept(owner, i, {}) == owner
  {
  }

  lemma KeptStep(sb: Super, blocks: seq<Block>, inodes: seq<Inode>, owner: map<nat, Slot>, i: nat, done: set<nat>,
                 j: nat)
    requires Pointers(sb, blocks, inodes, owner) && i < |inodes| && j < NSLOTS && j !in done
    ensures var b := Ptr(blocks, inodes[i], j);
            && (b == 0 ==> Kept(owner, i, done + {j}) == Kept(owner, i, done))
            && (b != 0 ==> b in Kept(owner, i, done) && sb.datastart <= b < sb.size
                           && Kept(owner, i, done + {j}).Keys == Kept(owner, i, done).Keys - {b})
  {
    var b := Ptr(blocks, inodes[i], j);
    assert PtrOk(blocks, inodes, owner, i, j);
    forall c | c in owner && owner[c] == Slot(i, j)
      ensures c == b && b != 0 && sb.datastart <= b < sb.size
    {
      assert OwnerOk(sb, blocks, inodes, owner, c);
    }
  }

  /** The owners once inode `i` has given up all its blocks. */
  function Others(owner: map<nat, Slot>, i: nat): map<nat, Slot> {
    map b | b in owner && owner[b].i != i :: owner[b]
  }

  lemma KeptAll(sb: Super, blocks: seq<Block>, inodes: seq<Inode>, owner: map<nat, Slot>, i: nat, done: set<nat>)
    requires Pointers(sb, blocks, inodes, owner) && i < |inodes|
    requires forall j: nat | j < NSLOTS :: j in done || Ptr(blocks, inodes[i], j) == 0
    ensures Kept(owner, i, done) == Others(owner, i)
  {
    forall b | b in owner && owner[b].i == i
      ensures owner[b].j in done
    {
      assert OwnerOk(sb, blocks, inodes, owner, b);
    }
  }

  /** The bitmap blocks of the blocks in the slots `done` of inode `i`. */
  ghost function BitsOf(sb: Super, owner: map<nat, Slot>, i: nat, done: set<nat>): set<nat> {
    set b | b in owner && owner[b].i == i && owner[b].j in done :: BitBlock(sb, b)
  }

  lemma BitsStep(sb: Super, blocks: seq<Block>, inodes: seq<Inode>, owner: map<nat, Slot>, i: nat, done: set<nat>,
                 j: nat)
    requires Pointers(sb, blocks, inodes, owner) && i < |inodes| && j < NSLOTS
    ensures var b := Ptr(blocks, inodes[i], j);
            BitsOf(sb, owner, i, done + {j}) == BitsOf(sb, owner, i, done) + if b == 0 then {} else {BitBlock(sb, b)}
  {
    var b := Ptr(blocks, inodes[i], j);
    assert PtrOk(blocks, inodes, owner, i, j);
    forall c | c in owner && owner[c] == Slot(i, j)
      ensures c == b && b != 0
    {
      assert OwnerOk(sb, blocks, inodes, owner, c);
    }
    forall x | x in BitsOf(sb, owner, i, done + {j})
      ensures x in BitsOf(sb, owner, i, done) + if b == 0 then {} else {BitBlock(sb, b)}
    {
      var c :| c in owner && owner[c].i == i && owner[c].j in done + {j} && BitBlock(sb, c) == x;
      assert owner[c].j == j ==> owner[c] == Slot(i, j);
    }
  }

  lemma BitsMore(sb: Super, owner: map<nat, Slot>, i: nat, done: set<nat>, all: set<nat>)
    requires done <= all
    ensures BitsOf(sb, owner, i, done) <= BitsOf(sb, owner, i, all)
  {
  }

  lemma NoBitsYet(sb: Super, owner: map<nat, Slot>, i: nat)
    ensures BitsOf(sb, owner, i, {}) == {}
  {
  }

  /** The bitmap blocks of all blocks of inode `i`. */
  ghost function Spread(sb: Super, owner: map<nat, Slot>, i: nat): set<nat> {
    set b | b in owner && owner[b].i == i :: BitBlock(sb, b)
  }

  lemma BitsAll(sb: Super, blocks: seq<Block>, inodes: seq<Inode>, owner: map<nat, Slot>, i: nat, done: set<nat>)
    requires Pointers(sb, blocks, inodes, owner) && i < |inodes|
    requires forall j: nat | j < NSLOTS :: j in done || Ptr(blocks, inodes[i], j) == 0
    ensures BitsOf(sb, owner, i, done) == Spread(sb, owner, i)
  {
    forall b | b in owner && owner[b].i == i
      ensures owner[b].j in done
    {
      assert OwnerOk(sb, blocks, inodes, owner, b);
    }
  }

  /** What truncating inode `i` logs. */
  ghost function TruncLogs(sb: Super, owner: map<nat, Slot>, i: nat): set<nat> {
    Spread(sb, owner, i) + {InodeBlock(sb, i)}
  }

  lemma {:induction false} BitmapSize(bs: set<nat>, lo: nat, n: nat)
    requires forall b | b in bs :: lo <= b < lo + n
    ensures |bs| <= n
  {
    if n == 0 {
      assert bs == {};
    } else {
      BitmapSize(bs - {lo + n - 1}, lo, n - 1);
    }
  }

  /** Truncating a file is within an operation's quota exactly when its blocks lie under fewer than
      MAXOPBLOCKS bitmap blocks, and so whenever the disk has no more than those. */
  lemma TruncQuota(sb: Super, blocks: seq<Block>, inodes: seq<Inode>, owner: map<nat, Slot>, i: nat)
    requires Pointers(sb, blocks, inodes, owner) && i < |inodes| == sb.ninodes
    ensures |TruncLogs(sb, owner, i)| == |Spread(sb, owner, i)| + 1
    ensures |TruncLogs(sb, owner, i)| <= MAXOPBLOCKS <==> |Spread(sb, owner, i)| < MAXOPBLOCKS
    ensures |Spread(sb, owner, i)| <= (sb.size - 1) / BPB + 1
    ensures sb.size <= (MAXOPBLOCKS - 1) * BPB ==> |TruncLogs(sb, owner, i)| <= MAXOPBLOCKS
  {
    OwnedInData(sb, blocks, inodes, owner);
    assert InodeBlock(sb, i) < sb.bmapstart;
    BitmapSize(Spread(sb, owner, i), sb.bmapstart, (sb.size - 1) / BPB + 1);
  }

  /** An inode without pointers leaves the other files' pointers and data as they were. */
  lemma Detached(sb: Super, blocks: seq<Block>, inodes: seq<Inode>, inodes': seq<Inode>, owner: map<nat, Slot>, i: nat)
    requires Pointers(sb, blocks, inodes, owner) && i < |inodes| == |inodes'| && inodes'[i].addrs == NO_ADDRS
    requires forall p: nat | p < |inodes| && p != i :: inodes'[p] == inodes[p]
    ensures Pointers(sb, blocks, inodes', Others(owner, i))
    ensures forall p: nat, n: nat | p < |inodes| && p != i && n < MAXFILE ::
              DataKept(blocks, inodes, blocks, inodes', p, n)
  {
    var owner' := Others(owner, i);
    forall p: nat, q: nat | p < |inodes| && q < NSLOTS
      ensures PtrOk(blocks, inodes', owner', p, q)
    {
      assert PtrOk(blocks, inodes, owner, p, q);
    }
    forall b: nat | b in owner'
      ensures OwnerOk(sb, blocks, inodes', owner', b)
    {
      assert OwnerOk(sb, blocks, inodes, owner, b);
    }
  }

  // ----- overwriting data -----

  lemma OverwriteData(sb: Super, blocks: seq<Block>, blocks': seq<Block>, inodes: seq<Inode>, owner: map<nat, Slot>,
                      i: nat, n: nat, x: Block)
    requires Pointers(sb, blocks, inodes, owner) && i < |inodes| && n < MAXFILE && Mapped(blocks, inodes, i, n)
    requires var b := Ptr(blocks, inodes[i], SlotOf(n)); b < |blocks| && blocks' == blocks[b := x]
    ensures Pointers(sb, blocks', inodes, owner)
    ensures DataAt(blocks', inodes, i, n) == x
    ensures forall p: nat, m: nat | p < |inodes| && m < MAXFILE && !(p == i && m == n) ::
              DataKept(blocks, inodes, blocks', inodes, p, m)
    ensures forall p: nat, m: nat | p < |inodes| && m < MAXFILE && Mapped(blocks, inodes, p, m) ::
              Mapped(blocks', inodes, p, m)
  {
    hide Ptr;
    PtrOwned(sb, blocks, inodes, owner, i, SlotOf(n));
    PointersFrame(sb, blocks, blocks', inodes, owner);
    forall p: nat, m: nat | p < |inodes| && m < MAXFILE
      ensures Ptr(blocks', inodes[p], SlotOf(m)) == Ptr(blocks, inodes[p], SlotOf(m))
      ensures !(p == i && m == n) ==> DataKept(blocks, inodes, blocks', inodes, p, m)
    {
      PtrFrame(sb, blocks, blocks', inodes, owner, p, SlotOf(m));
      if Ptr(blocks, inodes[p], SlotOf(m)) != 0 {
        PtrOwned(sb, blocks, inodes, owner, p, SlotOf(m));
      }
    }
  }
}
