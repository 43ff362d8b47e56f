/** Inodes as byte sequences: allocating, mapping, reading, writing and freeing their blocks, and the
    blocks that a transaction of `filewrite` logs. Calls run one after another, as the locks of the
    inodes and buffers make them. */
module Files {
  import opened Basics
  import opened Words
  import opened Bitmap
  import opened Inodes

  /** What one call of `bmap` that had to allocate logs: the bitmap block and the zeroed block,
      and for an entry the indirect block, with its own bitmap block when that was missing too. */
  function BmapLogs(sb: Super, n: nat, had: bool, a: Word, b: Word): set<nat> {
    {BitBlock(sb, b), b as nat} + (if n < NDIRECT then {} else if had then {a as nat} else {a as nat, BitBlock(sb, a)})
  }

  function PatchedByte(x: Block, o: nat, data: seq<Byte>, j: nat): Byte
    requires o + |data| <= BSIZE && j < BSIZE
  {
    if o <= j < o + |data| then data[j - o] else x.bytes[j]
  }

  /** Block `x` with the bytes of `data` stored from byte `o` on. */
  function Patch(x: Block, o: nat, data: seq<Byte>): Block
    requires o + |data| <= BSIZE
  {
    Block(seq(BSIZE, (j: nat) requires j < BSIZE => PatchedByte(x, o, data, j)))
  }

  function Min(a: nat, b: nat): nat {
    if a < b then a else b
  }

  /** How many of `m` bytes from offset `off` on lie in blocks they cover to the end. */
  function Whole(off: nat, m: nat): nat {
    var end := (off + m) / BSIZE * BSIZE;
    if end <= off then 0 else end - off
  }

  lemma WholeFits(off: nat, n: nat, m: nat)
    ensures Whole(off, m) <= m && (m < n ==> Whole(off, m) < n)
  {
  }

  lemma WholeNone(off: nat)
    ensures Whole(off, 0) == 0
  {
  }

  /** Stopping at the end of a block, or of the request. */
  lemma WholeStep(off: nat, tot: nat, m: nat, want: nat)
    requires tot < want && m == Min(want - tot, BSIZE - (off + tot) % BSIZE) && tot == Whole(off, tot)
    ensures 0 < m && (off + tot) % BSIZE + m <= BSIZE && (tot + m == want || tot + m == Whole(off, tot + m))
    ensures forall room: nat | tot <= room < tot + m :: Whole(off, room) == tot
  {
    var e := (off + tot) / BSIZE * BSIZE;
    forall room: nat | tot <= room < tot + m
      ensures Whole(off, room) == tot
    {
      assert (off + room) / BSIZE == (off + tot) / BSIZE;
    }
    if tot + m < want {
      assert off + tot + m == e + BSIZE;
      assert (e + BSIZE) / BSIZE * BSIZE == e + BSIZE;
    }
  }

  /** Unsigned 32-bit addition overflows. */
  predicate Overflows(off: Word, n: Word) {
    (off + n) % 0x1_0000_0000 < off
  }

  // ----- reading -----

  /** One chunk of a file, out of the block that holds it. */
  lemma ReadChunk(blocks: seq<Block>, inodes: seq<Inode>, i: nat, o: nat, m: nat)
    requires i < |inodes| && inodes[i].size <= MAXBYTES && o + m <= inodes[i].size && o % BSIZE + m <= BSIZE && 0 < m
    ensures o / BSIZE < MAXFILE
    ensures DataAt(blocks, inodes, i, o / BSIZE).bytes[o % BSIZE..o % BSIZE + m] ==
                FileBytes(blocks, inodes, i)[o..o + m]
  {
    hide DataAt;
    var x, y := DataAt(blocks, inodes, i, o / BSIZE).bytes[o % BSIZE..o % BSIZE + m],
        FileBytes(blocks, inodes, i)[o..o + m];
    forall t: nat | t < m
      ensures x[t] == y[t]
    {
      assert (o + t) / BSIZE == o / BSIZE && (o + t) % BSIZE == o % BSIZE + t;
    }
  }

  // ----- what a write does to the bytes of the files -----

  predicate ByteWrote(b0: seq<Block>, i0: seq<Inode>, b1: seq<Block>, i1: seq<Inode>, i: nat, off: nat,
                      data: seq<Byte>, k: nat)
    requires i < |i0| == |i1| && k < MAXBYTES
  {
    ByteAt(b1, i1, i, k) == if off <= k < off + |data| then data[k - off] else ByteAt(b0, i0, i, k)
  }

  /** File `i` has `data` stored from byte `off` on; its other bytes and all other files' data are
      as before. */
  predicate Wrote(b0: seq<Block>, i0: seq<Inode>, b1: seq<Block>, i1: seq<Inode>, i: nat, off: nat, data: seq<Byte>) {
    && i < |i0| == |i1|
    && (forall p: nat, n: nat | p < |i0| && p != i && n < MAXFILE :: DataKept(b0, i0, b1, i1, p, n))
    && forall k: nat | k < MAXBYTES :: ByteWrote(b0, i0, b1, i1, i, off, data, k)
  }

  lemma WroteNothing(b0: seq<Block>, i0: seq<Inode>, i: nat, off: nat)
    requires i < |i0|
    ensures Wrote(b0, i0, b0, i0, i, off, [])
  {
  }

  lemma WroteGrows(b0: seq<Block>, i0: seq<Inode>, b1: seq<Block>, i1: seq<Inode>, b2: seq<Block>, i2: seq<Inode>,
                   i: nat, off: nat, data: seq<Byte>)
    requires Wrote(b0, i0, b1, i1, i, off, data) && Grows(b1, i1, b2, i2)
    ensures Wrote(b0, i0, b2, i2, i, off, data)
  {
    hide DataAt;
    forall p: nat, n: nat | p < |i0| && p != i && n < MAXFILE
      ensures DataKept(b0, i0, b2, i2, p, n)
    {
      assert DataKept(b0, i0, b1, i1, p, n) && DataKept(b1, i1, b2, i2, p, n);
    }
    forall k: nat | k < MAXBYTES
      ensures ByteWrote(b0, i0, b2, i2, i, off, data, k)
    {
      assert ByteWrote(b0, i0, b1, i1, i, off, data, k);
      assert DataKept(b1, i1, b2, i2, i, k / BSIZE);
    }
  }

  /** Storing `more` at byte `o` of block `n`, which is where `data` ended, extends the write. */
  lemma WroteMore(b0: seq<Block>, i0: seq<Inode>, b1: seq<Block>, b2: seq<Block>, i1: seq<Inode>, i: nat, off: nat,
                  data: seq<Byte>, n: nat, o: nat, more: seq<Byte>)
    requires Wrote(b0, i0, b1, i1, i, off, data) && n < MAXFILE && off + |data| == n * BSIZE + o && o + |more| <= BSIZE
    requires forall p: nat, m: nat | p < |i0| && m < MAXFILE && !(p == i && m == n) :: DataKept(b1, i1, b2, i1, p, m)
    requires DataAt(b2, i1, i, n) == Patch(DataAt(b1, i1, i, n), o, more)
    ensures Wrote(b0, i0, b2, i1, i, off, data + more)
  {
    hide DataAt;
    forall p: nat, m: nat | p < |i0| && p != i && m < MAXFILE
      ensures DataKept(b0, i0, b2, i1, p, m)
    {
      assert DataKept(b0, i0, b1, i1, p, m) && DataKept(b1, i1, b2, i1, p, m);
    }
    forall k: nat | k < MAXBYTES
      ensures ByteWrote(b0, i0, b2, i1, i, off, data + more, k)
    {
      assert ByteWrote(b0, i0, b1, i1, i, off, data, k);
      if k / BSIZE != n {
        assert DataKept(b1, i1, b2, i1, i, k / BSIZE);
      }
    }
  }

  lemma WroteTrans(b0: seq<Block>, i0: seq<Inode>, b1: seq<Block>, i1: seq<Inode>, b2: seq<Block>, i2: seq<Inode>,
                   i: nat, off: nat, data: seq<Byte>, more: seq<Byte>)
    requires Wrote(b0, i0, b1, i1, i, off, data) && Wrote(b1, i1, b2, i2, i, off + |data|, more)
    ensures Wrote(b0, i0, b2, i2, i, off, data + more)
  {
    hide DataAt, ByteAt;
    forall p: nat, n: nat | p < |i0| && p != i && n < MAXFILE
      ensures DataKept(b0, i0, b2, i2, p, n)
    {
      assert DataKept(b0, i0, b1, i1, p, n) && DataKept(b1, i1, b2, i2, p, n);
    }
    forall k: nat | k < MAXBYTES
      ensures ByteWrote(b0, i0, b2, i2, i, off, data + more, k)
    {
      assert ByteWrote(b0, i0, b1, i1, i, off, data, k) && ByteWrote(b1, i1, b2, i2, i, off + |data|, more, k);
    }
  }

  /** Nothing mapped gets unmapped, and apart from the pointers the inodes are the same. */
  predicate MappedKept(b0: seq<Block>, i0: seq<Inode>, b1: seq<Block>, i1: seq<Inode>, p: nat, n: nat)
    requires p < |i0| == |i1| && n < MAXFILE
  {
    Mapped(b0, i0, p, n) ==> Mapped(b1, i1, p, n)
  }

  predicate Keeps(b0: seq<Block>, i0: seq<Inode>, b1: seq<Block>, i1: seq<Inode>) {
    && |i0| == |i1|
    && (forall p: nat | p < |i0| :: MetaKept(i0, i1, p))
    && forall p: nat, n: nat | p < |i0| && n < MAXFILE :: MappedKept(b0, i0, b1, i1, p, n)
  }

  lemma KeepsRefl(b0: seq<Block>, i0: seq<Inode>)
    ensures Keeps(b0, i0, b0, i0)
  {
  }

  lemma KeepsTrans(b0: seq<Block>, i0: seq<Inode>, b1: seq<Block>, i1: seq<Inode>, b2: seq<Block>, i2: seq<Inode>)
    requires Keeps(b0, i0, b1, i1) && Keeps(b1, i1, b2, i2)
    ensures Keeps(b0, i0, b2, i2)
  {
    hide Mapped;
    forall p: nat | p < |i0|
      ensures MetaKept(i0, i2, p)
    {
      assert MetaKept(i0, i1, p) && MetaKept(i1, i2, p);
    }
    forall p: nat, n: nat | p < |i0| && n < MAXFILE
      ensures MappedKept(b0, i0, b2, i2, p, n)
    {
      assert MappedKept(b0, i0, b1, i1, p, n) && MappedKept(b1, i1, b2, i2, p, n);
    }
  }

  lemma GrowsKeeps(b0: seq<Block>, i0: seq<Inode>, b1: seq<Block>, i1: seq<Inode>)
    requires Grows(b0, i0, b1, i1)
    ensures Keeps(b0, i0, b1, i1)
  {
    hide Ptr;
    forall p: nat, n: nat | p < |i0| && n < MAXFILE
      ensures MappedKept(b0, i0, b1, i1, p, n)
    {
      assert PtrKept(b0, i0, b1, i1, p, SlotOf(n));
    }
  }

  /** Every block of file `i` that starts before byte `end` is mapped. */
  predicate MappedTo(blocks: seq<Block>, inodes: seq<Inode>, i: nat, end: nat)
    requires i < |inodes|
  {
    forall n: nat | n < MAXFILE && n * BSIZE < end :: Mapped(blocks, inodes, i, n)
  }

  lemma MappedToStep(b0: seq<Block>, i0: seq<Inode>, b1: seq<Block>, i1: seq<Inode>, i: nat, o: nat, m: nat)
    requires Keeps(b0, i0, b1, i1) && i < |i0| && MappedTo(b0, i0, i, o) && o / BSIZE < MAXFILE
    requires Mapped(b1, i1, i, o / BSIZE)
    requires o % BSIZE + m <= BSIZE
    ensures MappedTo(b1, i1, i, o) && MappedTo(b1, i1, i, o + m)
  {
    forall n: nat | n < MAXFILE && n * BSIZE < o + m
      ensures Mapped(b1, i1, i, n)
    {
      if n * BSIZE < o {
        KeepsMapped(b0, i0, b1, i1, i, n);
      } else {
        assert n == o / BSIZE;
      }
    }
  }

  /** Growing the size up to what has been mapped leaves no hole. */
  lemma NoHolesAfter(b0: seq<Block>, i0: seq<Inode>, b1: seq<Block>, i1: seq<Inode>, i2: seq<Inode>, i: nat, end: nat,
                     p: nat)
    requires Keeps(b0, i0, b1, i1) && i < |i0| && p < |i0| && NoHoles(b0, i0, p) && MappedTo(b1, i1, i, end)
    requires end <= MAXBYTES
    requires i2 == i1[i := i1[i].(size := if end > i1[i].size then end else i1[i].size)]
    ensures NoHoles(b1, i2, p)
  {
    assert MetaKept(i0, i1, p);
    forall n: nat | n < MAXFILE && n * BSIZE < i2[p].size
      ensures Mapped(b1, i2, p, n)
    {
      if n * BSIZE < i0[p].size {
        KeepsMapped(b0, i0, b1, i1, p, n);
      } else {
        assert Mapped(b1, i1, i, n);
      }
    }
  }

  /** Only the addresses matter for pointers and data. */
  lemma SameAddrs(sb: Super, blocks: seq<Block>, i1: seq<Inode>, i2: seq<Inode>, owner: map<nat, Slot>)
    requires Pointers(sb, blocks, i1, owner) && |i1| == |i2| && forall p: nat | p < |i1| :: i2[p].addrs == i1[p].addrs
    ensures Pointers(sb, blocks, i2, owner)
    ensures forall p: nat, n: nat | p < |i1| && n < MAXFILE ::
              DataKept(blocks, i1, blocks, i2, p, n) && MappedKept(blocks, i1, blocks, i2, p, n)
  {
    assert forall p: nat, j: nat | p < |i1| && j < NSLOTS :: Ptr(blocks, i2[p], j) == Ptr(blocks, i1[p], j);
    forall p: nat, j: nat | p < |i1| && j < NSLOTS
      ensures PtrOk(blocks, i2, owner, p, j)
    {
      assert PtrOk(blocks, i1, owner, p, j);
    }
    forall b: nat | b in owner
      ensures OwnerOk(sb, blocks, i2, owner, b)
    {
      assert OwnerOk(sb, blocks, i1, owner, b);
    }
  }

  lemma WroteResized(b0: seq<Block>, i0: seq<Inode>, b1: seq<Block>, i1: seq<Inode>, i2: seq<Inode>, i: nat, off: nat,
                     data: seq<Byte>)
    requires Wrote(b0, i0, b1, i1, i, off, data) && |i2| == |i1|
    requires forall p: nat, n: nat | p < |i1| && n < MAXFILE :: DataKept(b1, i1, b1, i2, p, n)
    ensures Wrote(b0, i0, b1, i2, i, off, data)
  {
    hide DataAt;
    forall p: nat, n: nat | p < |i0| && p != i && n < MAXFILE
      ensures DataKept(b0, i0, b1, i2, p, n)
    {
      assert DataKept(b0, i0, b1, i1, p, n) && DataKept(b1, i1, b1, i2, p, n);
    }
    forall k: nat | k < MAXBYTES
      ensures ByteWrote(b0, i0, b1, i2, i, off, data, k)
    {
      assert ByteWrote(b0, i0, b1, i1, i, off, data, k);
      assert DataKept(b1, i1, b1, i2, i, k / BSIZE);
    }
  }

  // ----- what a write allocates -----

  /** Slot `j` is that of one of the blocks `lo` to `hi` of a file, or the indirect block of some. */
  predicate Covers(j: nat, lo: nat, hi: nat) {
    if j < NDIRECT then lo <= j < hi else if j == NDIRECT then NDIRECT < hi else lo < j <= hi
  }

  predicate GainOk(sb: Super, o0: map<nat, Slot>, o1: map<nat, Slot>, logged: set<nat>, i: nat, lo: nat, hi: nat,
                   b: nat)
    requires b in o1
  {
    if b in o0 then o1[b] == o0[b]
    else o1[b].i == i && Covers(o1[b].j, lo, hi) && b in logged && BitBlock(sb, b) in logged
  }

  /** No free block is left below one that was allocated. */
  predicate NoneSkipped(sb: Super, o0: map<nat, Slot>, o1: map<nat, Slot>) {
    forall b: nat, c: nat | b in o1 && b !in o0 && c < b :: Taken(sb, o1.Keys, c)
  }

  /** The owners `o1` are those of `o0` and blocks that blocks `lo` to `hi` of file `i` needed, the lowest ones
      first, which have been logged with their bitmap blocks. */
  predicate Gains(sb: Super, o0: map<nat, Slot>, o1: map<nat, Slot>, logged: set<nat>, i: nat, lo: nat, hi: nat) {
    && (forall b | b in o0 :: b in o1) && (forall b | b in o1 :: GainOk(sb, o0, o1, logged, i, lo, hi, b))
    && NoneSkipped(sb, o0, o1)
  }

  lemma GainsNothing(sb: Super, o0: map<nat, Slot>, logged: set<nat>, i: nat, lo: nat, hi: nat)
    ensures Gains(sb, o0, o0, logged, i, lo, hi)
  {
  }

  lemma GainsOne(sb: Super, o0: map<nat, Slot>, logged: set<nat>, i: nat, j: nat, b: nat, lo: nat, hi: nat)
    requires Lowest(sb, o0.Keys, b) && Covers(j, lo, hi) && b in logged && BitBlock(sb, b) in logged
    ensures Gains(sb, o0, o0[b := Slot(i, j)], logged, i, lo, hi)
  {
    var o1 := o0[b := Slot(i, j)];
    forall c: nat | c < b
      ensures Taken(sb, o1.Keys, c)
    {
      assert Taken(sb, o0.Keys, c);
    }
  }

  lemma SkippedTrans(sb: Super, o0: map<nat, Slot>, o1: map<nat, Slot>, o2: map<nat, Slot>)
    requires NoneSkipped(sb, o0, o1) && NoneSkipped(sb, o1, o2) && forall b | b in o1 :: b in o2
    ensures NoneSkipped(sb, o0, o2)
  {
    forall b: nat, c: nat | b in o2 && b !in o0 && c < b
      ensures Taken(sb, o2.Keys, c)
    {
      if b in o1 {
        assert Taken(sb, o1.Keys, c);
      }
    }
  }

  lemma GainsTrans(sb: Super, o0: map<nat, Slot>, o1: map<nat, Slot>, o2: map<nat, Slot>, l1: set<nat>, l2: set<nat>,
                   i: nat, lo: nat, mid: nat, hi: nat)
    requires Gains(sb, o0, o1, l1, i, lo, mid) && Gains(sb, o1, o2, l2, i, mid, hi) && l1 <= l2 && lo <= mid <= hi
    ensures Gains(sb, o0, o2, l2, i, lo, hi)
  {
    SkippedTrans(sb, o0, o1, o2);
    forall b | b in o2
      ensures GainOk(sb, o0, o2, l2, i, lo, hi, b)
    {
      assert GainOk(sb, o1, o2, l2, i, mid, hi, b);
      if b in o1 {
        assert GainOk(sb, o0, o1, l1, i, lo, mid, b);
      }
    }
  }

  lemma GainsAgain(sb: Super, o0: map<nat, Slot>, o1: map<nat, Slot>, o2: map<nat, Slot>, logged: set<nat>, i: nat,
                   lo: nat, hi: nat)
    requires Gains(sb, o0, o1, logged, i, lo, hi) && Gains(sb, o1, o2, logged, i, lo, hi)
    ensures Gains(sb, o0, o2, logged, i, lo, hi)
  {
    SkippedTrans(sb, o0, o1, o2);
    forall b | b in o2
      ensures GainOk(sb, o0, o2, logged, i, lo, hi, b)
    {
      assert GainOk(sb, o1, o2, logged, i, lo, hi, b);
      if b in o1 {
        assert GainOk(sb, o0, o1, logged, i, lo, hi, b);
      }
    }
  }

  lemma GainsMore(sb: Super, o0: map<nat, Slot>, o1: map<nat, Slot>, l1: set<nat>, l2: set<nat>, i: nat, lo: nat,
                  hi: nat, hi': nat)
    requires Gains(sb, o0, o1, l1, i, lo, hi) && l1 <= l2 && hi <= hi'
    ensures Gains(sb, o0, o1, l2, i, lo, hi')
  {
    forall b | b in o1
      ensures GainOk(sb, o0, o1, l2, i, lo, hi', b)
    {
      assert GainOk(sb, o0, o1, l1, i, lo, hi, b);
    }
  }

  /** The data blocks `lo` to `hi` of file `i` have been logged. */
  predicate TouchLogged(owner: map<nat, Slot>, logged: set<nat>, i: nat, lo: nat, hi: nat) {
    forall b | b in owner && owner[b].i == i && owner[b].j != NDIRECT && Covers(owner[b].j, lo, hi) :: b in logged
  }

  lemma TouchMore(sb: Super, o1: map<nat, Slot>, o2: map<nat, Slot>, l1: set<nat>, l2: set<nat>, i: nat, lo: nat,
                  hi: nat, x: nat)
    requires TouchLogged(o1, l1, i, lo, hi) && Gains(sb, o1, o2, l2, i, hi, hi + 1) && l1 <= l2 && lo <= hi
    requires x in l2 && forall b | b in o2 && o2[b] == Slot(i, SlotOf(hi)) :: b == x
    ensures TouchLogged(o2, l2, i, lo, hi + 1)
  {
    forall b | b in o2 && o2[b].i == i && o2[b].j != NDIRECT && Covers(o2[b].j, lo, hi + 1)
      ensures b in l2
    {
      assert GainOk(sb, o1, o2, l2, i, hi, hi + 1, b);
      assert o2[b] == Slot(i, SlotOf(hi)) || Covers(o2[b].j, lo, hi);
    }
  }

  lemma OneBlock(sb: Super, blocks: seq<Block>, inodes: seq<Inode>, owner: map<nat, Slot>, i: nat, j: nat)
    requires Pointers(sb, blocks, inodes, owner) && i < |inodes| && j < NSLOTS
    ensures forall b | b in owner && owner[b] == Slot(i, j) :: b == Ptr(blocks, inodes[i], j) as nat
  {
    forall b | b in owner && owner[b] == Slot(i, j)
      ensures b == Ptr(blocks, inodes[i], j) as nat
    {
      assert OwnerOk(sb, blocks, inodes, owner, b);
    }
  }

  lemma TouchNothing(owner: map<nat, Slot>, logged: set<nat>, i: nat, lo: nat)
    ensures TouchLogged(owner, logged, i, lo, lo)
  {
  }

  lemma TouchMoreLog(owner: map<nat, Slot>, l1: set<nat>, l2: set<nat>, i: nat, lo: nat, hi: nat)
    requires TouchLogged(owner, l1, i, lo, hi) && l1 <= l2
    ensures TouchLogged(owner, l2, i, lo, hi)
  {
  }

  /** Some block `lo` to `hi` of file `i` is missing. */
  ghost predicate Lacks(blocks: seq<Block>, inodes: seq<Inode>, i: nat, lo: nat, hi: nat) {
    exists n: nat :: LacksAt(blocks, inodes, i, lo, hi, n)
  }

  predicate LacksAt(blocks: seq<Block>, inodes: seq<Inode>, i: nat, lo: nat, hi: nat, n: nat) {
    i < |inodes| && lo <= n < hi && n < MAXFILE && !Mapped(blocks, inodes, i, n)
  }

  lemma LacksOne(blocks: seq<Block>, inodes: seq<Inode>, i: nat, lo: nat, hi: nat, n: nat)
    requires i < |inodes| && lo <= n < hi && n < MAXFILE && !Mapped(blocks, inodes, i, n)
    ensures Lacks(blocks, inodes, i, lo, hi)
  {
    assert LacksAt(blocks, inodes, i, lo, hi, n);
  }

  /** A block missing for a part of a write is missing for the write. */
  lemma LacksMore(blocks: seq<Block>, inodes: seq<Inode>, i: nat, off: nat, n: nat, k: nat, m: nat)
    requires 0 < m && k + m <= n && Lacks(blocks, inodes, i, (off + k) / BSIZE, (off + k) / BSIZE + Chunks(off + k, m))
    ensures Lacks(blocks, inodes, i, off / BSIZE, off / BSIZE + Chunks(off, n))
  {
    hide Mapped;
    var b: nat :| LacksAt(blocks, inodes, i, (off + k) / BSIZE, (off + k) / BSIZE + Chunks(off + k, m), b);
    assert (off + k + m - 1) / BSIZE <= (off + n - 1) / BSIZE;
    assert LacksAt(blocks, inodes, i, off / BSIZE, off / BSIZE + Chunks(off, n), b);
  }

  /** Block `b` is the lowest free one. */
  predicate Lowest(sb: Super, used: set<nat>, b: nat) {
    sb.datastart <= b < sb.size && b !in used && forall c: nat | c < b :: Taken(sb, used, c)
  }

  // ----- what a write logs -----

  /** The indirect block, if there is one. */
  function Indirect(ip: Inode): set<nat> {
    if ip.addrs[NDIRECT] == 0 then {} else {ip.addrs[NDIRECT] as nat}
  }

  /** The indirect block stays, or appears. */
  predicate IndirectKept(ip: Inode, ip': Inode) {
    ip.addrs[NDIRECT] != 0 ==> ip'.addrs[NDIRECT] == ip.addrs[NDIRECT]
  }

  function Appeared(ip: Inode, ip': Inode): nat {
    if ip.addrs[NDIRECT] == 0 && ip'.addrs[NDIRECT] != 0 then 1 else 0
  }

  lemma GrowsIndirect(b0: seq<Block>, i0: seq<Inode>, b1: seq<Block>, i1: seq<Inode>, i: nat)
    requires Grows(b0, i0, b1, i1) && i < |i0|
    ensures IndirectKept(i0[i], i1[i])
  {
    assert PtrKept(b0, i0, b1, i1, i, NDIRECT);
  }

  lemma MappedIndirect(blocks: seq<Block>, inodes: seq<Inode>, i: nat, n: nat)
    requires i < |inodes| && NDIRECT <= n < MAXFILE && Mapped(blocks, inodes, i, n)
    ensures inodes[i].addrs[NDIRECT] != 0
  {
  }

  lemma KeepsMapped(b0: seq<Block>, i0: seq<Inode>, b1: seq<Block>, i1: seq<Inode>, p: nat, n: nat)
    requires Keeps(b0, i0, b1, i1) && p < |i0| && n < MAXFILE && Mapped(b0, i0, p, n)
    ensures Mapped(b1, i1, p, n)
  {
    assert MappedKept(b0, i0, b1, i1, p, n);
  }

  /** The bitmap blocks among `BmapLogs`. */
  function BmapMaps(sb: Super, n: nat, had: bool, a: Word, b: Word): set<nat> {
    if n < NDIRECT || had then {BitBlock(sb, b)} else {BitBlock(sb, b), BitBlock(sb, a)}
  }

  lemma BmapLogsSplit(sb: Super, n: nat, ip: Inode, ip': Inode, b: Word)
    requires IndirectKept(ip, ip') && (n >= NDIRECT ==> ip'.addrs[NDIRECT] != 0)
    ensures var had, a := ip.addrs[NDIRECT] != 0, ip'.addrs[NDIRECT];
            var maps := BmapMaps(sb, n, had, a, b);
            BmapLogs(sb, n, had, a, b) <= {b as nat} + maps + Indirect(ip') && |maps| <= 1 + Appeared(ip, ip')
  {
  }

  /** How many blocks a write of `n` bytes at `off` touches. */
  function Chunks(off: nat, n: nat): nat {
    if n == 0 then 0 else (off + n - 1) / BSIZE - off / BSIZE + 1
  }

  /** 1 when the write starts inside a block. */
  function Partial(off: nat): nat {
    if off % BSIZE == 0 then 0 else 1
  }

  lemma ChunksStep(off: nat, tot: nat, m: nat, n: nat)
    requires tot < n && m == Min(n - tot, BSIZE - (off + tot) % BSIZE) && tot == Whole(off, tot)
    ensures Chunks(off, tot + m) == Chunks(off, tot) + 1 <= Chunks(off, n)
    ensures (Chunks(off, tot) == 0 <==> tot == 0) && (off + tot) / BSIZE == off / BSIZE + Chunks(off, tot)
  {
    var e := (off + tot) / BSIZE;
    if tot > 0 {
      assert off + tot == e * BSIZE;
      assert (off + tot - 1) / BSIZE == e - 1;
    }
    assert (off + tot + m - 1) / BSIZE == e;
  }

  /** All of `l1` is in `l0`, in `data`, in `maps`, or is the indirect block. */
  predicate Accounts(l0: set<nat>, l1: set<nat>, data: set<nat>, maps: set<nat>, ip: Inode) {
    l1 <= l0 + data + maps + Indirect(ip)
  }

  lemma AccountsStep(l0: set<nat>, l1: set<nat>, l2: set<nat>, data: set<nat>, maps: set<nat>, b: nat, more: set<nat>,
                     ip0: Inode, ip1: Inode, ip2: Inode)
    requires Accounts(l0, l1, data, maps, ip1) && Accounts(l1, l2, {b}, more, ip2)
    requires IndirectKept(ip0, ip1) && IndirectKept(ip1, ip2)
    ensures Accounts(l0, l2, data + {b}, maps + more, ip2) && |data + {b}| <= |data| + 1
    ensures |maps + more| <= |maps| + |more|
    ensures IndirectKept(ip0, ip2) && Appeared(ip0, ip1) + Appeared(ip1, ip2) <= Appeared(ip0, ip2)
  {
    UnionSize(data, {b});
    UnionSize(maps, more);
  }

  lemma AccountsSize(l0: set<nat>, l1: set<nat>, data: set<nat>, maps: set<nat>, ip: Inode, inodeBlock: nat)
    requires Accounts(l0, l1, data, maps, ip)
    ensures |l1 + {inodeBlock} - l0| <= |data| + |maps| + 2
  {
    var all := data + maps + Indirect(ip) + {inodeBlock};
    UnionSize(data, maps);
    UnionSize(data + maps, Indirect(ip));
    UnionSize(data + maps + Indirect(ip), {inodeBlock});
    SubsetSize(l1 + {inodeBlock} - l0, all);
  }

  /** The fields of the file system at one moment. */
  datatype Snap = Snap(blocks: seq<Block>, inodes: seq<Inode>, owner: map<nat, Slot>, logged: set<nat>)

  /** What one round of `writei` does to file `i`: block `o / BSIZE` is there, and has `data` in it. */
  predicate Round(sb: Super, s0: Snap, s1: Snap, i: nat, o: nat, data: seq<Byte>, ok: bool, x: Word, maps: set<nat>) {
    && i < |s0.inodes| == |s1.inodes| && o / BSIZE < MAXFILE
    && Gains(sb, s0.owner, s1.owner, s1.logged, i, o / BSIZE, o / BSIZE + 1) && s0.logged <= s1.logged
    && Keeps(s0.blocks, s0.inodes, s1.blocks, s1.inodes) && Mapped(s1.blocks, s1.inodes, i, o / BSIZE)
    && Wrote(s0.blocks, s0.inodes, s1.blocks, s1.inodes, i, o, data)
    && IndirectKept(s0.inodes[i], s1.inodes[i])
    && Accounts(s0.logged, s1.logged, {x as nat}, maps, s1.inodes[i])
    && |maps| <= (if Mapped(s0.blocks, s0.inodes, i, o / BSIZE) then 0 else 1) + Appeared(s0.inodes[i], s1.inodes[i])
    && (ok ==> x as nat in s1.logged)
    && forall b | b in s1.owner && s1.owner[b] == Slot(i, SlotOf(o / BSIZE)) :: b == x as nat
  }

  /** What the rounds of `writei` have done once `tot` bytes are written. */
  predicate Progress(sb: Super, s0: Snap, s1: Snap, i: nat, off: nat, tot: nat, src: seq<Byte>, data: set<nat>,
                     maps: set<nat>) {
    var lo := off / BSIZE;
    && i < |s0.inodes| == |s1.inodes| && tot <= |src|
    && Wrote(s0.blocks, s0.inodes, s1.blocks, s1.inodes, i, off, src[..tot])
    && Keeps(s0.blocks, s0.inodes, s1.blocks, s1.inodes) && MappedTo(s1.blocks, s1.inodes, i, off + tot)
    && IndirectKept(s0.inodes[i], s1.inodes[i]) && Accounts(s0.logged, s1.logged, data, maps, s1.inodes[i])
    && |data| <= Chunks(off, tot)
    && |maps| <= (if tot == 0 then 0 else Chunks(off, tot) - Partial(off)) + Appeared(s0.inodes[i], s1.inodes[i])
    && Gains(sb, s0.owner, s1.owner, s1.logged, i, lo, lo + Chunks(off, tot))
    && TouchLogged(s1.owner, s1.logged, i, lo, lo + Chunks(off, tot))
  }

  lemma ProgressStart(sb: Super, s0: Snap, i: nat, off: nat, src: seq<Byte>)
    requires i < |s0.inodes| && NoHoles(s0.blocks, s0.inodes, i) && off <= s0.inodes[i].size
    ensures Progress(sb, s0, s0, i, off, 0, src, {}, {}) && Whole(off, 0) == 0 && Chunks(off, 0) == 0
  {
    hide DataAt, ByteAt;
    WroteNothing(s0.blocks, s0.inodes, i, off);
    KeepsRefl(s0.blocks, s0.inodes);
    GainsNothing(sb, s0.owner, s0.logged, i, off / BSIZE, off / BSIZE);
    TouchNothing(s0.owner, s0.logged, i, off / BSIZE);
    assert src[..0] == [];
  }

  /** What holds after a round, whether or not its copy failed. */
  lemma RoundAdds(sb: Super, s0: Snap, s1: Snap, s2: Snap, i: nat, off: nat, tot: nat, m: nat, n: nat, w: nat,
                  src: seq<Byte>, ok: bool, x: Word,
                  data: set<nat>, maps: set<nat>, more: set<nat>)
    requires Progress(sb, s0, s1, i, off, tot, src, data, maps)
    requires tot < n && m == Min(n - tot, BSIZE - (off + tot) % BSIZE) && tot == Whole(off, tot) && tot <= |src|
    requires w == Min(m, |src| - tot)
    requires Round(sb, s1, s2, i, off + tot, src[tot..tot + w], ok, x, more)
    ensures var data', maps', c := data + {x as nat}, maps + more, Chunks(off, tot);
            && |s0.inodes| == |s2.inodes| && Wrote(s0.blocks, s0.inodes, s2.blocks, s2.inodes, i, off, src[..tot + w])
            && Keeps(s0.blocks, s0.inodes, s2.blocks, s2.inodes) && IndirectKept(s0.inodes[i], s2.inodes[i])
            && MappedTo(s2.blocks, s2.inodes, i, off + tot) && MappedTo(s2.blocks, s2.inodes, i, off + tot + m)
            && Accounts(s0.logged, s2.logged, data', maps', s2.inodes[i])
            && |data'| <= c + 1 && |maps'| <= c + 1 - Partial(off) + Appeared(s0.inodes[i], s2.inodes[i])
            && Chunks(off, tot + m) == c + 1 <= Chunks(off, n)
            && Gains(sb, s0.owner, s2.owner, s2.logged, i, off / BSIZE, off / BSIZE + c + 1)
  {
    hide Ptr, Wrote, Keeps, DataAt, Mapped, Indirect, Accounts, Whole, Chunks, IndirectKept, Gains, TouchLogged,
        Appeared;
    var o := off + tot;
    ChunksStep(off, tot, m, n);
    WholeStep(off, tot, m, n);
    if o % BSIZE != 0 {
      PartialMapped(s1.blocks, s1.inodes, i, o);
    }
    GainsTrans(sb, s0.owner, s1.owner, s2.owner, s1.logged, s2.logged, i, off / BSIZE, o / BSIZE, o / BSIZE + 1);
    MappedToStep(s1.blocks, s1.inodes, s2.blocks, s2.inodes, i, o, m);
    KeepsTrans(s0.blocks, s0.inodes, s1.blocks, s1.inodes, s2.blocks, s2.inodes);
    WroteTrans(s0.blocks, s0.inodes, s1.blocks, s1.inodes, s2.blocks, s2.inodes, i, off, src[..tot], src[tot..tot + w]);
    AccountsStep(s0.logged, s1.logged, s2.logged, data, maps, x as nat, more, s0.inodes[i], s1.inodes[i], s2.inodes[i]);
    assert src[..tot] + src[tot..tot + w] == src[..tot + w];
    PartialStart(off, tot);
  }

  lemma PartialMapped(blocks: seq<Block>, inodes: seq<Inode>, i: nat, o: nat)
    requires i < |inodes| && MappedTo(blocks, inodes, i, o) && o % BSIZE != 0 && o / BSIZE < MAXFILE
    ensures Mapped(blocks, inodes, i, o / BSIZE)
  {
    hide Mapped;
    assert o / BSIZE * BSIZE < o;
  }

  /** Only the first round can start inside a block. */
  lemma PartialStart(off: nat, tot: nat)
    requires tot == Whole(off, tot)
    ensures if tot == 0 then Partial(off) == Partial(off + tot) else (off + tot) % BSIZE == 0
  {
  }

  lemma RoundTouches(sb: Super, s0: Snap, s1: Snap, s2: Snap, i: nat, off: nat, tot: nat, src: seq<Byte>,
                     more: seq<Byte>, x: Word,
                     data: set<nat>, maps: set<nat>, maps': set<nat>)
    requires Progress(sb, s0, s1, i, off, tot, src, data, maps) && (off + tot) / BSIZE == off / BSIZE + Chunks(off, tot)
    requires Round(sb, s1, s2, i, off + tot, more, true, x, maps')
    ensures TouchLogged(s2.owner, s2.logged, i, off / BSIZE, off / BSIZE + Chunks(off, tot) + 1)
  {
    hide Chunks, TouchLogged, Gains, Wrote, Keeps, MappedTo, Accounts, IndirectKept, Appeared, Mapped;
    TouchMore(sb, s1.owner, s2.owner, s1.logged, s2.logged, i, off / BSIZE, (off + tot) / BSIZE, x as nat);
  }

  lemma ProgressStep(sb: Super, s0: Snap, s1: Snap, s2: Snap, i: nat, off: nat, tot: nat, m: nat, n: nat,
                     src: seq<Byte>, x: Word,
                     data: set<nat>, maps: set<nat>, more: set<nat>)
    requires Progress(sb, s0, s1, i, off, tot, src, data, maps)
    requires tot < n && m == Min(n - tot, BSIZE - (off + tot) % BSIZE) && tot == Whole(off, tot) && tot + m <= |src|
    requires Round(sb, s1, s2, i, off + tot, src[tot..tot + m], true, x, more)
    ensures Progress(sb, s0, s2, i, off, tot + m, src, data + {x as nat}, maps + more)
    ensures Chunks(off, tot + m) <= Chunks(off, n)
  {
    hide Chunks, TouchLogged, Gains, Wrote, Keeps, MappedTo, Accounts, IndirectKept, Appeared, Mapped, Round, Whole;
    RoundAdds(sb, s0, s1, s2, i, off, tot, m, n, m, src, true, x, data, maps, more);
    ChunksStep(off, tot, m, n);
    RoundTouches(sb, s0, s1, s2, i, off, tot, src, src[tot..tot + m], x, data, maps, more);
  }

  /** A round that found no free block. */
  lemma Stopped(sb: Super, s0: Snap, s1: Snap, s2: Snap, i: nat, off: nat, tot: nat, n: nat, src: seq<Byte>,
                data: set<nat>, maps: set<nat>)
    requires Progress(sb, s0, s1, i, off, tot, src, data, maps)
    requires (off + tot) / BSIZE == off / BSIZE + Chunks(off, tot) && Chunks(off, tot) < Chunks(off, n)
    requires Gains(sb, s1.owner, s2.owner, s2.logged, i, (off + tot) / BSIZE, (off + tot) / BSIZE + 1)
    requires s1.logged <= s2.logged
    ensures Gains(sb, s0.owner, s2.owner, s2.logged, i, off / BSIZE, off / BSIZE + Chunks(off, n))
  {
    hide Gains, Chunks;
    GainsTrans(sb, s0.owner, s1.owner, s2.owner, s1.logged, s2.logged, i, off / BSIZE, (off + tot) / BSIZE,
        (off + tot) / BSIZE + 1);
    GainsMore(sb, s0.owner, s2.owner, s2.logged, s2.logged, i, off / BSIZE, (off + tot) / BSIZE + 1,
        off / BSIZE + Chunks(off, n));
  }

  lemma Finished(sb: Super, s0: Snap, s1: Snap, i: nat, off: nat, n: nat, src: seq<Byte>, data: set<nat>,
                 maps: set<nat>)
    requires Progress(sb, s0, s1, i, off, n, src, data, maps)
    ensures |data| <= Chunks(off, n) && |maps| <= Chunks(off, n) + 1
    ensures (n > 0 ==> |maps| <= Chunks(off, n) - Partial(off) + 1)
    ensures Wrote(s0.blocks, s0.inodes, s1.blocks, s1.inodes, i, off, src[..Min(n, |src|)])
    ensures i < |s0.inodes| == |s1.inodes|
    ensures Keeps(s0.blocks, s0.inodes, s1.blocks, s1.inodes) && MappedTo(s1.blocks, s1.inodes, i, off + n)
    ensures Accounts(s0.logged, s1.logged, data, maps, s1.inodes[i])
    ensures Gains(sb, s0.owner, s1.owner, s1.logged, i, off / BSIZE, off / BSIZE + Chunks(off, n))
    ensures TouchLogged(s1.owner, s1.logged, i, off / BSIZE, off / BSIZE + Chunks(off, n))
  {
  }

  /** The byte sequence `f` with `data` written over it from `off` on. */
  function Splice(f: seq<Byte>, off: nat, data: seq<Byte>): seq<Byte>
    requires off <= |f|
  {
    f[..off] + data + (if off + |data| <= |f| then f[off + |data|..] else [])
  }

  /** `Splice`, cut off at `end` if that is past the old end. */
  function SpliceTo(f: seq<Byte>, off: nat, data: seq<Byte>, end: nat): seq<Byte>
    requires off <= |f| && end <= off + |data|
  {
    Splice(f, off, data)[..if end > |f| then end else |f|]
  }

  lemma SpliceToEnd(f: seq<Byte>, off: nat, data: seq<Byte>)
    requires off <= |f|
    ensures SpliceTo(f, off, data, off + |data|) == Splice(f, off, data)
  {
  }

  lemma WroteSplices(b0: seq<Block>, i0: seq<Inode>, b1: seq<Block>, i1: seq<Inode>, i: nat, off: nat, data: seq<Byte>,
                     end: nat)
    requires Wrote(b0, i0, b1, i1, i, off, data) && off <= i0[i].size <= MAXBYTES && end <= off + |data| <= MAXBYTES
    requires i1[i].size == if end > i0[i].size then end else i0[i].size
    ensures FileBytes(b1, i1, i) == SpliceTo(FileBytes(b0, i0, i), off, data, end)
  {
    hide ByteAt;
    forall k: nat | k < i1[i].size
      ensures FileBytes(b1, i1, i)[k] == Splice(FileBytes(b0, i0, i), off, data)[k]
    {
      assert ByteWrote(b0, i0, b1, i1, i, off, data, k);
    }
  }

  /** Two writes, the second where the first ended, are one. */
  lemma SpliceSplice(f: seq<Byte>, off: nat, a: seq<Byte>, b: seq<Byte>)
    requires off <= |f|
    ensures off + |a| <= |Splice(f, off, a)| && Splice(Splice(f, off, a), off + |a|, b) == Splice(f, off, a + b)
  {
  }

  lemma SpliceToTwice(f: seq<Byte>, off: nat, a: seq<Byte>, b: seq<Byte>, end: nat)
    requires off <= |f| && off + |a| <= end <= off + |a| + |b|
    ensures var g := SpliceTo(f, off, a, off + |a|);
            off + |a| <= |g| && SpliceTo(g, off + |a|, b, end) == SpliceTo(f, off, a + b, end)
  {
    SpliceToEnd(f, off, a);
    SpliceSplice(f, off, a, b);
  }

  lemma SpliceNothing(f: seq<Byte>, off: nat)
    requires off <= |f|
    ensures Splice(f, off, []) == f
  {
  }

  lemma KeptFile(b0: seq<Block>, i0: seq<Inode>, b1: seq<Block>, i1: seq<Inode>, p: nat)
    requires p < |i0| == |i1| && i1[p].size == i0[p].size && NoHoles(b0, i0, p)
    requires forall n: nat | n < MAXFILE :: DataKept(b0, i0, b1, i1, p, n) && MappedKept(b0, i0, b1, i1, p, n)
    ensures NoHoles(b1, i1, p) && FileKept(b0, i0, b1, i1, p)
  {
    hide DataAt, Mapped;
    forall k: nat | k < i0[p].size
      ensures ByteAt(b1, i1, p, k) == ByteAt(b0, i0, p, k)
    {
      assert DataKept(b0, i0, b1, i1, p, k / BSIZE);
    }
    forall n: nat | n < MAXFILE && n * BSIZE < i1[p].size
      ensures Mapped(b1, i1, p, n)
    {
      assert Mapped(b0, i0, p, n) && MappedKept(b0, i0, b1, i1, p, n);
    }
  }

  lemma FileKeptTrans(b0: seq<Block>, i0: seq<Inode>, b1: seq<Block>, i1: seq<Inode>, b2: seq<Block>, i2: seq<Inode>,
                      i: nat)
    requires |i0| == |i1| == |i2|
    requires forall p: nat | p < |i0| && p != i :: FileKept(b0, i0, b1, i1, p) && FileKept(b1, i1, b2, i2, p)
    ensures forall p: nat | p < |i0| && p != i :: FileKept(b0, i0, b2, i2, p)
  {
    hide FileBytes;
    forall p: nat | p < |i0| && p != i
      ensures FileKept(b0, i0, b2, i2, p)
    {
      assert FileKept(b0, i0, b1, i1, p) && FileKept(b1, i1, b2, i2, p);
    }
  }

  /** A file keeps its bytes when its inode is the same and its data is. */
  lemma SameInode(b0: seq<Block>, i0: seq<Inode>, b1: seq<Block>, i1: seq<Inode>, p: nat)
    requires p < |i0| == |i1| && i1[p] == i0[p] && NoHoles(b0, i0, p)
    requires Grows(b0, i0, b1, i0)
    ensures NoHoles(b1, i1, p) && FileKept(b0, i0, b1, i1, p)
  {
    GrowsNoHoles(b0, i0, b1, i0, p);
    assert forall n: nat | n < MAXFILE :: Mapped(b1, i1, p, n) == Mapped(b1, i0, p, n);
    forall k: nat | k < i0[p].size
      ensures ByteAt(b1, i1, p, k) == ByteAt(b0, i0, p, k)
    {
      assert DataKept(b0, i0, b1, i0, p, k / BSIZE);
    }
  }

  /** A chunk of three blocks' length touches four blocks only when its first is partial. */
  lemma ChunkFits(off: nat, n: nat)
    requires n <= 3 * BSIZE
    ensures 2 * Chunks(off, n) + 3 - (if n > 0 then Partial(off) else 0) <= MAXOPBLOCKS
  {
  }

  predicate FileKept(b0: seq<Block>, i0: seq<Inode>, b1: seq<Block>, i1: seq<Inode>, p: nat)
    requires p < |i0| == |i1|
  {
    i1[p].size == i0[p].size <= MAXBYTES && FileBytes(b1, i1, p) == FileBytes(b0, i0, p)
  }

  /** A write of `n` bytes at `start` of a file of `size` bytes leaves no gap and does not make the file too
      large, and all its bytes can be read. */
  predicate CanWrite(size: nat, start: nat, n: nat, readable: nat) {
    n == 0 || (n <= readable && start <= size && start + n <= MAXBYTES)
  }

  /** A file reaches to the end of what has been written to it. */
  lemma WrittenSize(b0: seq<Block>, i0: seq<Inode>, b1: seq<Block>, i1: seq<Inode>, i: nat, start: nat,
                    data: seq<Byte>)
    requires Written(b0, i0, b1, i1, i, start, data, start + |data|)
    ensures start <= i0[i].size ==> start + |data| <= i1[i].size
    ensures start > i0[i].size ==> data == []
    ensures data == [] ==> (start <= i0[i].size <==> start <= i1[i].size)
  {
    FileLength(b0, i0, i);
    FileLength(b1, i1, i);
    hide FileBytes;
  }

  /** File `i` has `data` spliced in at `start`, which is possible only up to its end, and cut off at
      `end`; all other files are as before. */
  predicate Written(b0: seq<Block>, i0: seq<Inode>, b1: seq<Block>, i1: seq<Inode>, i: nat, start: nat,
                    data: seq<Byte>, end: nat) {
    && i < |i0| == |i1| && i0[i].size <= MAXBYTES && i1[i].size <= MAXBYTES && start <= end <= start + |data|
    && (if start <= i0[i].size then |FileBytes(b0, i0, i)| == i0[i].size
        && FileBytes(b1, i1, i) == SpliceTo(FileBytes(b0, i0, i), start, data, end)
        else data == [] && FileBytes(b1, i1, i) == FileBytes(b0, i0, i))
    && forall p: nat | p < |i0| && p != i :: FileKept(b0, i0, b1, i1, p)
  }

  lemma WrittenNothing(b0: seq<Block>, i0: seq<Inode>, i: nat, start: nat)
    requires i < |i0| && forall p: nat | p < |i0| :: NoHoles(b0, i0, p)
    ensures Written(b0, i0, b0, i0, i, start, [], start)
  {
    assert NoHoles(b0, i0, i);
    FileLength(b0, i0, i);
    hide FileBytes, Splice, Mapped;
    if start <= i0[i].size {
      SpliceToEnd(FileBytes(b0, i0, i), start, []);
      SpliceNothing(FileBytes(b0, i0, i), start);
    }
    forall p: nat | p < |i0| && p != i
      ensures FileKept(b0, i0, b0, i0, p)
    {
      assert NoHoles(b0, i0, p);
    }
  }

  lemma FileLength(b0: seq<Block>, i0: seq<Inode>, i: nat)
    requires i < |i0| && i0[i].size <= MAXBYTES
    ensures |FileBytes(b0, i0, i)| == i0[i].size
  {
  }

  lemma WrittenTrans(b0: seq<Block>, i0: seq<Inode>, b1: seq<Block>, i1: seq<Inode>, b2: seq<Block>, i2: seq<Inode>,
                     i: nat, start: nat, a: seq<Byte>, b: seq<Byte>,
                     end: nat)
    requires Written(b0, i0, b1, i1, i, start, a, start + |a|) && Written(b1, i1, b2, i2, i, start + |a|, b, end)
    ensures Written(b0, i0, b2, i2, i, start, a + b, end)
  {
    FileLength(b0, i0, i);
    FileLength(b1, i1, i);
    hide FileBytes, Splice;
    if start <= i0[i].size {
      SpliceSplice(FileBytes(b0, i0, i), start, a, b);
      SpliceToTwice(FileBytes(b0, i0, i), start, a, b, end);
    }
    forall p: nat | p < |i0| && p != i
      ensures FileKept(b0, i0, b2, i2, p)
    {
      assert FileKept(b0, i0, b1, i1, p) && FileKept(b1, i1, b2, i2, p);
    }
  }

  lemma OthersKept(b0: seq<Block>, i0: seq<Inode>, b1: seq<Block>, i1: seq<Inode>, i: nat, off: nat, data: seq<Byte>,
                   p: nat)
    requires Wrote(b0, i0, b1, i1, i, off, data) && p < |i0| && p != i && i1[p].size == i0[p].size <= MAXBYTES
    ensures FileBytes(b1, i1, p) == FileBytes(b0, i0, p)
  {
    hide DataAt;
    forall k: nat | k < i0[p].size
      ensures ByteAt(b1, i1, p, k) == ByteAt(b0, i0, p, k)
    {
      assert DataKept(b0, i0, b1, i1, p, k / BSIZE);
    }
  }

  /** The bits of blocks `b`, ..., `b + BPB - 1` are in one bitmap block. */
  lemma SameBitBlock(sb: Super, b: nat, bi: nat)
    requires b % BPB == 0 && bi < BPB
    ensures BitBlock(sb, b + bi) == BitBlock(sb, b) && (b + bi) % BPB == bi
  {
  }

  /** A file system with no file. */
  lemma NothingOwned(sb: Super, blocks: seq<Block>, inodes: seq<Inode>)
    requires GoodSuper(sb) && |blocks| == sb.size && MarkedTo(sb, blocks, sb.datastart)
    requires forall i: nat | i < |inodes| :: inodes[i] == Inode(0, 0, 0, NO_ADDRS, 0, false)
    ensures Pointers(sb, blocks, inodes, map[]) && Marks(sb, blocks, {})
    ensures forall i: nat | i < |inodes| :: NoHoles(blocks, inodes, i)
  {
  }

  /** The data area is the same in both. */
  predicate SameData(sb: Super, blocks: seq<Block>, blocks': seq<Block>) {
    |blocks| == |blocks'| && forall c: nat | sb.datastart <= c < |blocks| :: blocks'[c] == blocks[c]
  }

  class FileSystem {
    const sb: Super
    var blocks: seq<Block>
    var inodes: seq<Inode>
    ghost var owner: map<nat, Slot>
    ghost var logged: set<nat>

    /** Ownership, and the bitmap agrees with it. */
    ghost predicate Sound()
      reads this
    {
      |inodes| == sb.ninodes && Pointers(sb, blocks, inodes, owner) && Marks(sb, blocks, owner.Keys)
    }

    ghost predicate Valid()
      reads this
    {
      Sound() && forall i: nat | i < |inodes| :: NoHoles(blocks, inodes, i)
    }

    ghost function Now(): Snap
      reads this
    {
      Snap(blocks, inodes, owner, logged)
    }

    /** A fresh image: the blocks before the data area are marked, no inode is in use. */
    constructor (sb: Super)
      requires GoodSuper(sb)
      ensures this.sb == sb && Valid() && owner == map[] && |inodes| == sb.ninodes
      ensures forall i: nat | i < |inodes| :: inodes[i].size == 0 && inodes[i].addrs == NO_ADDRS
    {
      this.sb := sb;
      blocks := seq(sb.size, _ => ZERO_BLOCK);
      inodes := seq(sb.ninodes, _ => Inode(0, 0, 0, NO_ADDRS, 0, false));
      owner := map[];
      logged := {};
      new;
      var b: nat := 0;
      NoneInUse(sb, blocks);
      while b < sb.datastart
        invariant b <= sb.datastart && |blocks| == sb.size && |inodes| == sb.ninodes && owner == map[]
        invariant forall i: nat | i < |inodes| :: inodes[i] == Inode(0, 0, 0, NO_ADDRS, 0, false)
        invariant MarkedTo(sb, blocks, b)
      {
        var m := BitBlock(sb, b);
        MarkNext(sb, blocks, b);
        blocks := blocks[m := FlipIn(blocks[m], b % BPB)];
        b := b + 1;
      }
      NothingOwned(sb, blocks, inodes);
    }

    // ----- blocks -----

    /** Allocate the lowest free block and zero it; None is the panic "out of blocks". */
    method Balloc(ghost used: set<nat>) returns (r: Option<Word>)
      requires Marks(sb, blocks, used)
      modifies this`blocks, this`logged
      ensures r.None? ==>
                blocks == old(blocks) && logged == old(logged) && forall c: nat | c < sb.size :: Taken(sb, used, c)
      ensures r.Some? ==>
        var b := r.value;
        && sb.datastart <= b < sb.size && b !in used && (forall c: nat | c < b :: Taken(sb, used, c))
        && |blocks| == |old(blocks)| && blocks[b] == ZERO_BLOCK
        && (forall c: nat | c < |blocks| && c != b && c != BitBlock(sb, b) :: blocks[c] == old(blocks)[c])
        && Marks(sb, blocks, used + {b as nat})
        && logged == old(logged) + {BitBlock(sb, b), b as nat}
    {
      hide InUse, BitIn, FlipIn;
      var b: nat := 0;
      var found: Option<nat> := None;
      while b < sb.size && found.None?
        invariant b % BPB == 0 && blocks == old(blocks) && logged == old(logged)
        invariant found.None? ==> forall c: nat | c < b && c < sb.size :: InUse(sb, blocks, c)
        invariant found.Some? ==> FirstFree(found.value)
        decreases sb.size - b, found.None?
      {
        found := ScanBits(b);
        b := b + BPB;
      }
      if found.Some? {
        Mark(found.value, used);
        r := Some(found.value);
      } else {
        r := None;
      }
    }

    ghost predicate FirstFree(b: nat)
      reads this
      requires GoodSuper(sb) && |blocks| == sb.size
    {
      b < sb.size && !InUse(sb, blocks, b) && forall c: nat | c < b :: InUse(sb, blocks, c)
    }

    /** Scan the bitmap block of block `b` for the first clear bit. */
    method ScanBits(b: nat) returns (r: Option<nat>)
      requires GoodSuper(sb) && |blocks| == sb.size && b % BPB == 0 && b < sb.size
      requires forall c: nat | c < b :: InUse(sb, blocks, c)
      ensures r.None? ==> forall c: nat | c < b + BPB && c < sb.size :: InUse(sb, blocks, c)
      ensures r.Some? ==> FirstFree(r.value)
    {
      var bp := blocks[BitBlock(sb, b)];
      var bi: nat := 0;
      while bi < BPB && b + bi < sb.size
        invariant bi <= BPB
        invariant forall c: nat | c < b + bi && c < sb.size :: InUse(sb, blocks, c)
      {
        SameBitBlock(sb, b, bi);
        assert InUse(sb, blocks, b + bi) == BitIn(bp, bi);
        if !BitIn(bp, bi) {
          return Some(b + bi);
        }
        bi := bi + 1;
      }
      r := None;
    }

    /** Set the bit of free block `b` and zero the block. */
    method Mark(b: nat, ghost used: set<nat>)
      requires Marks(sb, blocks, used) && b < sb.size && !InUse(sb, blocks, b)
      modifies this`blocks, this`logged
      ensures sb.datastart <= b && b !in used
      ensures |blocks| == |old(blocks)| && blocks[b] == ZERO_BLOCK
      ensures forall c: nat | c < |blocks| && c != b && c != BitBlock(sb, b) :: blocks[c] == old(blocks)[c]
      ensures Marks(sb, blocks, used + {b}) && logged == old(logged) + {BitBlock(sb, b), b}
    {
      var m := BitBlock(sb, b);
      blocks := blocks[m := FlipIn(blocks[m], b % BPB)];
      FlipMarks(sb, old(blocks), blocks, used, b);
      ghost var marked := blocks;
      blocks := blocks[b := ZERO_BLOCK];
      MarksKept(sb, marked, blocks, used + {b});
      logged := logged + {m, b};
    }

    /** Free block `b`; false is the panic "freeing free block". */
    method Bfree(b: nat, ghost used: set<nat>) returns (ok: bool)
      requires Marks(sb, blocks, used) && sb.datastart <= b < sb.size
      modifies this`blocks, this`logged
      ensures ok == (b in used)
      ensures !ok ==> blocks == old(blocks) && logged == old(logged)
      ensures ok ==> Marks(sb, blocks, used - {b}) && logged == old(logged) + {BitBlock(sb, b)}
      ensures |blocks| == |old(blocks)|
      ensures forall c: nat | c < |blocks| && c != BitBlock(sb, b) :: blocks[c] == old(blocks)[c]
    {
      var m := BitBlock(sb, b);
      assert InUse(sb, blocks, b) == Taken(sb, used, b);
      ok := BitIn(blocks[m], b % BPB);
      if ok {
        blocks := blocks[m := FlipIn(blocks[m], b % BPB)];
        FlipMarks(sb, old(blocks), blocks, used, b);
        logged := logged + {m};
      }
    }

    // ----- mapping -----

    /** No free block is left. */
    ghost predicate Full()
      reads this
    {
      forall c: nat | c < sb.size :: Taken(sb, owner.Keys, c)
    }

    /** Pointer `j` of inode `i`, allocating its block if it is missing. */
    method Attach(i: nat, j: nat) returns (r: Option<Word>)
      requires Sound() && i < |inodes| && j <= NDIRECT
      modifies this
      ensures Sound() && Grows(old(blocks), old(inodes), blocks, inodes)
      ensures r.None? || old(inodes)[i].addrs[j] != 0 ==>
                blocks == old(blocks) && inodes == old(inodes) && owner == old(owner) && logged == old(logged)
      ensures r.None? ==> Full() && old(inodes)[i].addrs[j] == 0
      ensures r.Some? ==> r.value == inodes[i].addrs[j] != 0 && inodes[i].addrs == old(inodes)[i].addrs[j := r.value]
      ensures r.Some? && old(inodes)[i].addrs[j] == 0 ==>
                && logged == old(logged) + {BitBlock(sb, r.value), r.value as nat}
                && r.value < |blocks| && blocks[r.value] == ZERO_BLOCK
                && Lowest(sb, old(owner).Keys, r.value) && owner == old(owner)[r.value as nat := Slot(i, j)]
    {
      hide Ptr, DataAt, Marks;
      r := Some(inodes[i].addrs[j]);
      GrowsRefl(blocks, inodes);
      if r.value == 0 {
        r := Balloc(owner.Keys);
        if r.Some? {
          var b := r.value;
          ghost var zeroed := blocks;
          UnownedGrows(sb, old(blocks), blocks, inodes, owner);
          inodes := inodes[i := inodes[i].(addrs := inodes[i].addrs[j := b])];
          AttachDirect(sb, blocks, old(inodes), inodes, owner, i, j, b);
          AttachedPointers(sb, blocks, old(inodes), blocks, inodes, owner, i, j, b);
          AttachedGrows(sb, blocks, old(inodes), blocks, inodes, owner, i, j, b);
          GrowsTrans(old(blocks), old(inodes), blocks, old(inodes), blocks, inodes);
          owner := owner[b as nat := Slot(i, j)];
          assert owner.Keys == old(owner).Keys + {b as nat};
        }
      }
    }

    /** Entry `k` of inode `i`'s indirect block, allocating its block if it is missing. */
    method MapEntry(i: nat, k: nat) returns (r: Option<Word>)
      requires Sound() && i < |inodes| && k < NINDIRECT && inodes[i].addrs[NDIRECT] != 0
      modifies this
      ensures Sound() && Grows(old(blocks), old(inodes), blocks, inodes) && inodes == old(inodes)
      ensures var was := Ptr(old(blocks), inodes[i], NDIRECT + 1 + k);
              && (r.None? || was != 0 ==> blocks == old(blocks) && owner == old(owner) && logged == old(logged))
              && (r.None? ==> Full() && was == 0)
              && (r.Some? && was == 0 ==>
                    && logged == old(logged) + {BitBlock(sb, r.value), r.value as nat, inodes[i].addrs[NDIRECT] as nat}
                    && Lowest(sb, old(owner).Keys, r.value)
                    && owner == old(owner)[r.value as nat := Slot(i, NDIRECT + 1 + k)])
      ensures r.Some? ==> r.value == Ptr(blocks, inodes[i], NDIRECT + 1 + k) != 0
    {
      hide DataAt, Marks;
      var a := inodes[i].addrs[NDIRECT];
      PtrOwned(sb, blocks, inodes, owner, i, NDIRECT);
      r := Some(ReadWord(blocks[a], k));
      GrowsRefl(blocks, inodes);
      if r.value == 0 {
        r := Balloc(owner.Keys);
        if r.Some? {
          EnterBlock(i, k, r.value, old(blocks));
        }
      }
    }

    /** Store the freshly allocated block `b` in entry `k` of the indirect block. */
    method EnterBlock(i: nat, k: nat, b: Word, ghost before: seq<Block>)
      requires |inodes| == sb.ninodes && i < |inodes| && k < NINDIRECT && inodes[i].addrs[NDIRECT] != 0
      requires Pointers(sb, before, inodes, owner) && Ptr(before, inodes[i], NDIRECT + 1 + k) == 0
      requires sb.datastart <= b < sb.size && b !in owner && |blocks| == |before| && blocks[b] == ZERO_BLOCK
      requires forall c: nat | c < |blocks| && c != b && c != BitBlock(sb, b) :: blocks[c] == before[c]
      requires Marks(sb, blocks, owner.Keys + {b as nat})
      modifies this`blocks, this`owner, this`logged
      ensures Sound() && Grows(before, inodes, blocks, inodes) && Ptr(blocks, inodes[i], NDIRECT + 1 + k) == b
      ensures logged == old(logged) + {inodes[i].addrs[NDIRECT] as nat}
      ensures owner == old(owner)[b as nat := Slot(i, NDIRECT + 1 + k)]
    {
      hide DataAt, Marks, Pointers, Grows, Attached;
      var a := inodes[i].addrs[NDIRECT];
      ghost var j := NDIRECT + 1 + k;
      ghost var zeroed := blocks;
      OwnedInData(sb, before, inodes, owner);
      BitBlockFree(b);
      UnownedGrows(sb, before, zeroed, inodes, owner);
      PtrFrame(sb, before, zeroed, inodes, owner, i, j);
      PtrOwned(sb, zeroed, inodes, owner, i, NDIRECT);
      blocks := blocks[a := WriteWord(blocks[a], k, b)];
      AttachEntry(sb, zeroed, blocks, inodes, owner, i, k, b);
      AttachedPointers(sb, zeroed, inodes, blocks, inodes, owner, i, j, b);
      AttachedGrows(sb, zeroed, inodes, blocks, inodes, owner, i, j, b);
      GrowsTrans(before, inodes, zeroed, inodes, blocks, inodes);
      MarksKept(sb, zeroed, blocks, owner.Keys + {b as nat});
      assert AttachedPtr(zeroed, inodes, blocks, inodes, i, j, b, i, j);
      owner := owner[b as nat := Slot(i, j)];
      assert owner.Keys == old(owner).Keys + {b as nat};
      logged := logged + {a as nat};
    }

    /** Bitmap blocks are not owned. */
    lemma BitBlockFree(b: nat)
      requires GoodSuper(sb) && b < sb.size
      ensures BitBlock(sb, b) < sb.datastart
    {
    }

    /** The block holding block `bn` of file `i`, allocated if it is missing. None is a panic: the
        block number is out of range, or no block is free. */
    method Bmap(i: nat, bn: nat) returns (r: Option<Word>)
      requires Sound() && i < |inodes|
      modifies this
      ensures Sound() && Grows(old(blocks), old(inodes), blocks, inodes)
      ensures r.None? <==> bn >= MAXFILE || !Mapped(blocks, inodes, i, bn)
      ensures r.None? && bn < MAXFILE ==> Full()
      ensures r.Some? ==> r.value == Ptr(blocks, inodes[i], SlotOf(bn))
      ensures bn < MAXFILE && Mapped(old(blocks), old(inodes), i, bn) ==>
                blocks == old(blocks) && inodes == old(inodes) && owner == old(owner) && logged == old(logged)
      ensures r.Some? && !Mapped(old(blocks), old(inodes), i, bn) ==>
                logged ==
                  old(logged) + BmapLogs(sb, bn, old(inodes)[i].addrs[NDIRECT] != 0, inodes[i].addrs[NDIRECT], r.value)
      ensures Gains(sb, old(owner), owner, logged, i, bn, bn + 1) && old(logged) <= logged
      ensures bn < NDIRECT && !Mapped(old(blocks), old(inodes), i, bn) ==>
                if r.None? then owner == old(owner)
                else Lowest(sb, old(owner).Keys, r.value) && owner == old(owner)[r.value as nat := Slot(i, bn)]
    {
      hide DataAt, Marks, Gains, Pointers;
      GainsNothing(sb, owner, logged, i, bn, bn + 1);
      if bn < NDIRECT {
        r := Attach(i, bn);
        if r.Some? && !Mapped(old(blocks), old(inodes), i, bn) {
          GainsOne(sb, old(owner), logged, i, bn, r.value as nat, bn, bn + 1);
        }
        return;
      }
      GrowsRefl(blocks, inodes);
      if bn < MAXFILE {
        r := BmapEntry(i, bn);
      } else {
        r := None;
      }
    }

    /** `bmap` of a block that the indirect block points to. */
    method BmapEntry(i: nat, bn: nat) returns (r: Option<Word>)
      requires Sound() && i < |inodes| && NDIRECT <= bn < MAXFILE
      modifies this
      ensures Sound() && Grows(old(blocks), old(inodes), blocks, inodes)
      ensures r.None? <==> !Mapped(blocks, inodes, i, bn)
      ensures r.None? ==> Full()
      ensures r.Some? ==> r.value == Ptr(blocks, inodes[i], SlotOf(bn))
      ensures Mapped(old(blocks), old(inodes), i, bn) ==>
                blocks == old(blocks) && inodes == old(inodes) && owner == old(owner) && logged == old(logged)
      ensures r.Some? && !Mapped(old(blocks), old(inodes), i, bn) ==>
                logged ==
                  old(logged) + BmapLogs(sb, bn, old(inodes)[i].addrs[NDIRECT] != 0, inodes[i].addrs[NDIRECT], r.value)
      ensures Gains(sb, old(owner), owner, logged, i, bn, bn + 1) && old(logged) <= logged
    {
      hide DataAt, Marks, Gains, Pointers;
      var k := bn - NDIRECT;
      GainsNothing(sb, owner, logged, i, bn, bn + 1);
      r := Attach(i, NDIRECT);
      if r.Some? {
        ghost var b1, i1, o1, l1 := blocks, inodes, owner, logged;
        if old(inodes)[i].addrs[NDIRECT] == 0 {
          GainsOne(sb, old(owner), logged, i, NDIRECT, r.value as nat, bn, bn + 1);
        }
        ZeroWords(k);
        r := MapEntry(i, k);
        GainsNothing(sb, o1, logged, i, bn, bn + 1);
        if r.Some? && Ptr(b1, i1[i], NDIRECT + 1 + k) == 0 {
          GainsOne(sb, o1, logged, i, NDIRECT + 1 + k, r.value as nat, bn, bn + 1);
        }
        GainsMore(sb, old(owner), o1, l1, logged, i, bn, bn + 1, bn + 1);
        GainsAgain(sb, old(owner), o1, owner, logged, i, bn, bn + 1);
        GrowsTrans(old(blocks), old(inodes), b1, i1, blocks, inodes);
        assert r.Some? && !Mapped(b1, i1, i, bn) ==>
            logged == old(logged)
                + BmapLogs(sb, bn, old(inodes)[i].addrs[NDIRECT] != 0, inodes[i].addrs[NDIRECT], r.value);
        assert PtrKept(old(blocks), old(inodes), b1, i1, i, SlotOf(bn));
      }
    }

    // ----- freeing -----

    /** Free the block of slot `j` of inode `i`, if it has one. The panic of `bfree` cannot happen:
        the slot owns its block, and `done` are the slots already freed. */
    method FreeSlot(b: Word, ghost was: seq<Block>, ghost nodes: seq<Inode>, ghost i: nat, ghost j: nat,
                    ghost done: set<nat>)
      requires Pointers(sb, was, nodes, owner) && i < |nodes| && j < NSLOTS && j !in done && b == Ptr(was, nodes[i], j)
      requires Marks(sb, blocks, Kept(owner, i, done).Keys) && SameData(sb, was, blocks)
      modifies this`blocks, this`logged
      ensures Marks(sb, blocks, Kept(owner, i, done + {j}).Keys) && SameData(sb, was, blocks)
      ensures logged == old(logged) + if b == 0 then {} else {BitBlock(sb, b)}
    {
      hide Ptr, Pointers;
      KeptStep(sb, was, nodes, owner, i, done, j);
      if b != 0 {
        BitBlockFree(b);
        var ok := Bfree(b, Kept(owner, i, done).Keys);
        assert ok;
      }
    }

    /** Free the direct blocks of inode `i`. */
    method FreeDirect(i: nat) returns (ghost done: set<nat>)
      requires Sound() && i < |inodes|
      modifies this`blocks, this`inodes, this`logged
      ensures Marks(sb, blocks, Kept(owner, i, done).Keys) && SameData(sb, old(blocks), blocks)
      ensures logged == old(logged) + BitsOf(sb, owner, i, done)
      ensures forall j: nat :: j in done <==> j < NDIRECT
      ensures |inodes| == |old(inodes)|
      ensures inodes == old(inodes)[i := old(inodes)[i].(addrs := NO_ADDRS[NDIRECT := old(inodes)[i].addrs[NDIRECT]])]
    {
      hide Ptr, Pointers, Marks, BitsOf;
      ghost var was, nodes := blocks, inodes;
      done := {};
      NoBitsYet(sb, owner, i);
      KeptNone(owner, i);
      for j := 0 to NDIRECT
        invariant forall q: nat :: q in done <==> q < j
        invariant Pointers(sb, was, nodes, owner)
        invariant Marks(sb, blocks, Kept(owner, i, done).Keys) && SameData(sb, was, blocks)
        invariant logged == old(logged) + BitsOf(sb, owner, i, done)
        invariant |inodes| == |nodes| && inodes == nodes[i := nodes[i].(addrs := inodes[i].addrs)]
        invariant forall q: nat | q <= NDIRECT :: inodes[i].addrs[q] == if q < j then 0 else nodes[i].addrs[q]
      {
        assert inodes[i].addrs[j] == Ptr(was, nodes[i], j) by { DirectPtr(was, nodes[i], j); }
        BitsStep(sb, was, nodes, owner, i, done, j);
        FreeSlot(inodes[i].addrs[j], was, nodes, i, j, done);
        inodes := inodes[i := inodes[i].(addrs := inodes[i].addrs[j := 0])];
        done := done + {j};
      }
      assert inodes[i].addrs == NO_ADDRS[NDIRECT := nodes[i].addrs[NDIRECT]];
    }

    /** Free the blocks the indirect block at `a` points to, then that block. Its entries are left
        as they are. */
    method FreeIndirect(a: Word, ghost was: seq<Block>, ghost nodes: seq<Inode>, ghost i: nat, ghost done: set<nat>)
      returns (ghost all: set<nat>)
      requires Pointers(sb, was, nodes, owner) && i < |nodes| && a == nodes[i].addrs[NDIRECT] != 0
      requires Marks(sb, blocks, Kept(owner, i, done).Keys) && SameData(sb, was, blocks)
      requires forall j: nat :: j in done <==> j < NDIRECT
      requires BitsOf(sb, owner, i, done) <= logged
      modifies this`blocks, this`logged
      ensures Marks(sb, blocks, Kept(owner, i, all).Keys) && SameData(sb, was, blocks)
      ensures logged == old(logged) + BitsOf(sb, owner, i, all)
      ensures forall j: nat :: j in all <==> j < NSLOTS
    {
      hide Pointers, Marks, ReadWord, BitsOf;
      PtrOwned(sb, was, nodes, owner, i, NDIRECT);
      OwnedInData(sb, was, nodes, owner);
      var bp := blocks[a];
      all := done;
      for k := 0 to NINDIRECT
        invariant forall j: nat :: j in all <==> j < NDIRECT || NDIRECT < j <= NDIRECT + k
        invariant Marks(sb, blocks, Kept(owner, i, all).Keys) && SameData(sb, was, blocks)
        invariant logged == old(logged) + BitsOf(sb, owner, i, all)
      {
        BitsStep(sb, was, nodes, owner, i, all, NDIRECT + 1 + k);
        FreeSlot(ReadWord(bp, k), was, nodes, i, NDIRECT + 1 + k, all);
        all := all + {NDIRECT + 1 + k};
      }
      BitsStep(sb, was, nodes, owner, i, all, NDIRECT);
      FreeSlot(a, was, nodes, i, NDIRECT, all);
      all := all + {NDIRECT};
    }

    /** Give back every block of inode `i`: exactly its blocks become free, and every other file
        keeps its data. No panic can happen. */
    method Itrunc(i: nat)
      requires Valid() && i < |inodes|
      modifies this
      ensures Valid() && owner == Others(old(owner), i)
      ensures inodes == old(inodes)[i := old(inodes)[i].(addrs := NO_ADDRS, size := 0)]
      ensures forall p: nat | p < |inodes| && p != i :: FileKept(old(blocks), old(inodes), blocks, inodes, p)
      ensures logged == old(logged) + TruncLogs(sb, old(owner), i)
    {
      hide Pointers, Marks, Ptr, NoHoles, FileKept, BitsOf;
      ghost var was, nodes := blocks, inodes;
      OwnedInData(sb, was, nodes, owner);
      ghost var done := FreeDirect(i);
      var a := inodes[i].addrs[NDIRECT];
      if a != 0 {
        ghost var all := FreeIndirect(a, was, nodes, i, done);
        BitsMore(sb, owner, i, done, all);
        done := all;
        inodes := inodes[i := inodes[i].(addrs := inodes[i].addrs[NDIRECT := 0])];
      } else {
        NoEntries(was, nodes[i]);
      }
      inodes := inodes[i := inodes[i].(size := 0)];
      Iupdate(i);
      assert inodes[i].addrs == NO_ADDRS;
      AllFreed(was, nodes, i, done);
      BitsAll(sb, was, nodes, owner, i, done);
      owner := Others(owner, i);
    }

    lemma AllFreed(was: seq<Block>, nodes: seq<Inode>, i: nat, done: set<nat>)
      requires Pointers(sb, was, nodes, owner) && i < |nodes| == |inodes| && inodes == nodes[i := inodes[i]]
      requires inodes[i].addrs == NO_ADDRS
      requires inodes[i].size == 0 && forall p: nat | p < |nodes| :: NoHoles(was, nodes, p)
      requires SameData(sb, was, blocks) && forall j: nat | j < NSLOTS :: j in done || Ptr(was, nodes[i], j) == 0
      ensures Pointers(sb, blocks, inodes, Others(owner, i)) && Kept(owner, i, done) == Others(owner, i)
      ensures forall p: nat | p < |inodes| :: NoHoles(blocks, inodes, p)
      ensures forall p: nat | p < |inodes| && p != i :: FileKept(was, nodes, blocks, inodes, p)
    {
      hide Ptr, DataAt;
      OwnedInData(sb, was, nodes, owner);
      KeptAll(sb, was, nodes, owner, i, done);
      UnownedGrows(sb, was, blocks, nodes, owner);
      Detached(sb, blocks, nodes, inodes, owner, i);
      forall p: nat | p < |inodes|
        ensures NoHoles(blocks, inodes, p) && (p != i ==> FileKept(was, nodes, blocks, inodes, p))
      {
        assert NoHoles(was, nodes, p);
        GrowsNoHoles(was, nodes, blocks, nodes, p);
        if p != i {
          SameInode(was, nodes, blocks, inodes, p);
        }
      }
    }

    /** Copy the inode to its disk block; the model keeps one copy of it. */
    method Iupdate(i: nat)
      modifies this`logged
      ensures logged == old(logged) + {InodeBlock(sb, i)}
    {
      logged := logged + {InodeBlock(sb, i)};
    }

    /** Drop a reference. The last one to an inode without links frees its blocks and the inode;
        any other leaves all files as they are. */
    method Iput(i: nat)
      requires Valid() && i < |inodes| && inodes[i].ref > 0
      modifies this
      ensures Valid() && |inodes| == |old(inodes)|
      ensures forall p: nat | p < |inodes| && p != i ::
                inodes[p] == old(inodes)[p] && FileKept(old(blocks), old(inodes), blocks, inodes, p)
      ensures var was := old(inodes)[i];
              if was.ref == 1 && was.valid && was.nlink == 0
              then && inodes[i] == Inode(0, 0, 0, NO_ADDRS, 0, false) && owner == Others(old(owner), i)
                   && logged == old(logged) + TruncLogs(sb, old(owner), i)
              else && inodes[i] == was.(ref := was.ref - 1) && owner == old(owner) && blocks == old(blocks)
                   && logged == old(logged)
    {
      hide Pointers, Marks, NoHoles, FileKept;
      if inodes[i].ref == 1 && inodes[i].valid && inodes[i].nlink == 0 {
        Free(i);
        ghost var b1, i1 := blocks, inodes;
        SetInode(i, inodes[i].(ref := inodes[i].ref - 1));
        FileKeptTrans(old(blocks), old(inodes), b1, i1, blocks, inodes, i);
      } else {
        SetInode(i, inodes[i].(ref := inodes[i].ref - 1));
      }
    }

    /** Truncate inode `i` and mark it free. */
    method Free(i: nat)
      requires Valid() && i < |inodes|
      modifies this
      ensures Valid() && |inodes| == |old(inodes)| && owner == Others(old(owner), i)
      ensures inodes == old(inodes)[i := old(inodes)[i].(kind := 0, size := 0, addrs := NO_ADDRS, valid := false)]
      ensures logged == old(logged) + TruncLogs(sb, old(owner), i)
      ensures forall p: nat | p < |inodes| && p != i :: FileKept(old(blocks), old(inodes), blocks, inodes, p)
    {
      hide Pointers, Marks, NoHoles, FileKept;
      Itrunc(i);
      ghost var b1, i1 := blocks, inodes;
      SetInode(i, inodes[i].(kind := 0));
      FileKeptTrans(old(blocks), old(inodes), b1, i1, blocks, inodes, i);
      Iupdate(i);
      ghost var b2, i2 := blocks, inodes;
      SetInode(i, inodes[i].(valid := false));
      FileKeptTrans(old(blocks), old(inodes), b2, i2, blocks, inodes, i);
    }

    /** Change fields of an inode that neither its pointers nor its size depend on. */
    method SetInode(i: nat, ip: Inode)
      requires Valid() && i < |inodes| && ip.addrs == inodes[i].addrs && ip.size == inodes[i].size
      modifies this`inodes
      ensures Valid() && inodes == old(inodes)[i := ip]
      ensures forall p: nat | p < |inodes| :: FileKept(old(blocks), old(inodes), blocks, inodes, p)
    {
      hide Pointers, Marks, NoHoles, FileKept, DataKept, MappedKept;
      inodes := inodes[i := ip];
      SameAddrs(sb, blocks, old(inodes), inodes, owner);
      forall p: nat | p < |inodes|
        ensures NoHoles(blocks, inodes, p) && FileKept(blocks, old(inodes), blocks, inodes, p)
      {
        assert NoHoles(blocks, old(inodes), p);
        KeptFile(blocks, old(inodes), blocks, inodes, p);
      }
    }

    // ----- reading and writing -----

    /** `m` bytes at offset `o`, all in one block below the size. `bmap` finds the block mapped, so
        nothing is allocated. */
    method ReadBlock(i: nat, o: nat, m: nat) returns (d: seq<Byte>)
      requires Sound() && i < |inodes| && NoHoles(blocks, inodes, i)
      requires o + m <= inodes[i].size && o % BSIZE + m <= BSIZE && 0 < m
      modifies this
      ensures blocks == old(blocks) && inodes == old(inodes) && owner == old(owner) && logged == old(logged)
      ensures d == FileBytes(blocks, inodes, i)[o..o + m]
    {
      hide Ptr, Marks, Pointers;
      assert Mapped(blocks, inodes, i, o / BSIZE);
      var b := Bmap(i, o / BSIZE);
      PtrOwned(sb, blocks, inodes, owner, i, SlotOf(o / BSIZE));
      OwnedInData(sb, blocks, inodes, owner);
      d := blocks[b.value].bytes[o % BSIZE..o % BSIZE + m];
      ReadChunk(blocks, inodes, i, o, m);
    }

    /** Read `n` bytes from offset `off` into a destination with `room` accessible bytes. Nothing
        is allocated, because no block below the size is missing. */
    method Readi(i: nat, off: Word, n: Word, room: nat) returns (r: int, dst: seq<Byte>)
      requires Valid() && i < |inodes|
      modifies this
      ensures blocks == old(blocks) && inodes == old(inodes) && owner == old(owner) && logged == old(logged)
      ensures NoHoles(blocks, inodes, i)
      ensures off > inodes[i].size || Overflows(off, n) ==> r == 0 && dst == []
      ensures off <= inodes[i].size && !Overflows(off, n) ==>
                var want := Min(n, inodes[i].size - off);
                var got := if want <= room then want else Whole(off, room);
                && got <= want && dst == FileBytes(blocks, inodes, i)[off..off + got]
                && r == if want <= room then want else -1
    {
      hide FileBytes, NoHoles, Pointers, Marks, Whole;
      dst := [];
      assert NoHoles(blocks, inodes, i);
      SizeBound(i);
      if off > inodes[i].size || Overflows(off, n) {
        return 0, [];
      }
      var want := Min(n, inodes[i].size - off);
      var tot: nat := 0;
      WholeNone(off);
      while tot < want
        invariant tot <= want && tot <= room && (tot == want || tot == Whole(off, tot))
        invariant blocks == old(blocks) && inodes == old(inodes) && owner == old(owner) && logged == old(logged)
        invariant dst == FileBytes(blocks, inodes, i)[off..off + tot]
      {
        var o := off + tot;
        var m := Min(want - tot, BSIZE - o % BSIZE);
        WholeStep(off, tot, m, want);
        var d := ReadBlock(i, o, m);
        if tot + m > room {
          assert Whole(off, room) == tot;
          return -1, dst;
        }
        dst := dst + d;
        tot := tot + m;
      }
      r := tot;
    }

    lemma SizeBound(i: nat)
      requires i < |inodes| && NoHoles(blocks, inodes, i)
      ensures inodes[i].size <= MAXBYTES && |FileBytes(blocks, inodes, i)| == inodes[i].size
    {
    }

    /** Store `data` at offset `o` of file `i`, all in block `b`, which holds that part, and log it. A copy
        that fails partway has stored its beginning, and is not logged. */
    method PutChunk(i: nat, o: nat, b: Word, data: seq<Byte>, ok: bool)
      requires Sound() && i < |inodes| && o / BSIZE < MAXFILE && o % BSIZE + |data| <= BSIZE
      requires Mapped(blocks, inodes, i, o / BSIZE) && b == Ptr(blocks, inodes[i], SlotOf(o / BSIZE))
      modifies this`blocks, this`logged
      ensures Sound() && |blocks| == |old(blocks)| && logged == if ok then old(logged) + {b as nat} else old(logged)
      ensures Wrote(old(blocks), inodes, blocks, inodes, i, o, data) && Keeps(old(blocks), inodes, blocks, inodes)
    {
      hide Ptr, Marks, Pointers;
      PtrOwned(sb, blocks, inodes, owner, i, SlotOf(o / BSIZE));
      OwnedInData(sb, blocks, inodes, owner);
      var x := Patch(blocks[b], o % BSIZE, data);
      blocks := blocks[b := x];
      OverwriteData(sb, old(blocks), blocks, inodes, owner, i, o / BSIZE, x);
      MarksKept(sb, old(blocks), blocks, owner.Keys);
      WroteNothing(old(blocks), inodes, i, o);
      WroteMore(old(blocks), inodes, old(blocks), blocks, inodes, i, o, [], o / BSIZE, o % BSIZE, data);
      assert [] + data == data;
      if ok {
        logged := logged + {b as nat};
      }
    }

    /** One round of `writei`: map the block, then store `data` there, all that is asked for or, if not
        `ok`, all that can be copied in. None is a panic. `maps` are the bitmap blocks logged. */
    method WriteChunk(i: nat, o: nat, data: seq<Byte>, ok: bool) returns (r: Option<Word>, ghost maps: set<nat>)
      requires Sound() && i < |inodes| && o / BSIZE < MAXFILE && o % BSIZE + |data| <= BSIZE
      modifies this
      ensures Sound() && |inodes| == |old(inodes)|
      ensures Gains(sb, old(owner), owner, logged, i, o / BSIZE, o / BSIZE + 1) && old(logged) <= logged
      ensures r.None? ==> Full() && !Mapped(blocks, inodes, i, o / BSIZE)
      ensures r.Some? ==> Round(sb, old(Now()), Now(), i, o, data, ok, r.value, maps)
    {
      hide Ptr, Marks, Pointers, Wrote, Keeps, Grows, DataAt, Mapped, BmapLogs, BmapMaps, Indirect, Appeared, Gains;
      var n := o / BSIZE;
      r := Bmap(i, n);
      maps := {};
      if r.Some? {
        GrowsKeeps(old(blocks), old(inodes), blocks, inodes);
        GrowsIndirect(old(blocks), old(inodes), blocks, inodes, i);
        WroteNothing(old(blocks), old(inodes), i, o);
        WroteGrows(old(blocks), old(inodes), old(blocks), old(inodes), blocks, inodes, i, o, []);
        if !Mapped(old(blocks), old(inodes), i, n) {
          maps := BmapMaps(sb, n, old(inodes)[i].addrs[NDIRECT] != 0, inodes[i].addrs[NDIRECT], r.value);
          if n >= NDIRECT {
            MappedIndirect(blocks, inodes, i, n);
          }
          BmapLogsSplit(sb, n, old(inodes)[i], inodes[i], r.value);
        }
        ghost var b1, l1 := blocks, logged;
        OneBlock(sb, blocks, inodes, owner, i, SlotOf(n));
        PutChunk(i, o, r.value, data, ok);
        GainsMore(sb, old(owner), owner, l1, logged, i, n, n + 1, n + 1);
        KeepsMapped(b1, inodes, blocks, inodes, i, n);
        KeepsTrans(old(blocks), old(inodes), b1, inodes, blocks, inodes);
        WroteTrans(old(blocks), old(inodes), b1, inodes, blocks, inodes, i, o, [], data);
        assert [] + data == data;
      }
    }

    /** The loop of `writei`. `src` are the bytes that can be copied in, and all of them that are asked for
        are; `tot` counts those in blocks whose copy did not fail. `panicked` is a panic for lack of free
        blocks. */
    method WriteBlocks(i: nat, off: nat, n: nat, src: seq<Byte>)
      returns (panicked: bool, tot: nat, ghost data: set<nat>, ghost maps: set<nat>)
      requires Sound() && i < |inodes| && NoHoles(blocks, inodes, i) && off <= inodes[i].size && off + n <= MAXBYTES
      modifies this
      ensures Sound() && |inodes| == |old(inodes)|
      ensures Gains(sb, old(owner), owner, logged, i, off / BSIZE, off / BSIZE + Chunks(off, n))
      ensures panicked ==> Full() && Lacks(blocks, inodes, i, off / BSIZE, off / BSIZE + Chunks(off, n))
      ensures !panicked ==>
                && tot == (if n <= |src| then n else Whole(off, |src|)) && tot <= |src| && tot <= n
                && Wrote(old(blocks), old(inodes), blocks, inodes, i, off, src[..Min(n, |src|)])
                && Keeps(old(blocks), old(inodes), blocks, inodes) && MappedTo(blocks, inodes, i, off + tot)
                && Accounts(old(logged), logged, data, maps, inodes[i])
                && |data| <= Chunks(off, n) && |maps| <= Chunks(off, n) + 1
                && (n > 0 ==> |maps| <= Chunks(off, n) - Partial(off) + 1)
                && (n <= |src| ==> TouchLogged(owner, logged, i, off / BSIZE, off / BSIZE + Chunks(off, n)))
    {
      hide Marks, Pointers, Wrote, Keeps, Mapped, MappedTo, Indirect, Accounts, Whole, Chunks, IndirectKept, Gains,
          TouchLogged, Lacks, NoHoles, Progress, Round;
      ghost var s0, lo := Now(), off / BSIZE;
      tot, panicked, data, maps := 0, false, {}, {};
      ProgressStart(sb, s0, i, off, src);
      while tot < n
        invariant tot <= n && tot <= |src| && (tot == n || tot == Whole(off, tot)) && Sound()
        invariant Progress(sb, s0, Now(), i, off, tot, src, data, maps) && |inodes| == |s0.inodes|
        invariant Chunks(off, tot) <= Chunks(off, n)
      {
        var o := off + tot;
        var m := Min(n - tot, BSIZE - o % BSIZE);
        WholeStep(off, tot, m, n);
        ChunksStep(off, tot, m, n);
        var ok := tot + m <= |src|;
        var w := Min(m, |src| - tot);
        ghost var s1 := Now();
        var r, more := WriteChunk(i, o, src[tot..tot + w], ok);
        if r.None? {
          panicked := true;
          LacksOne(blocks, inodes, i, lo, lo + Chunks(off, n), o / BSIZE);
          Stopped(sb, s0, s1, Now(), i, off, tot, n, src, data, maps);
          return;
        }
        if !ok {
          RoundAdds(sb, s0, s1, Now(), i, off, tot, m, n, w, src, ok, r.value, data, maps, more);
          data, maps := data + {r.value as nat}, maps + more;
          GainsMore(sb, s0.owner, owner, logged, logged, i, lo, o / BSIZE + 1, lo + Chunks(off, n));
          return;
        }
        ProgressStep(sb, s0, s1, Now(), i, off, tot, m, n, src, r.value, data, maps, more);
        data, maps := data + {r.value as nat}, maps + more;
        tot := tot + m;
      }
      Finished(sb, s0, Now(), i, off, n, src, data, maps);
    }

    /** Write `n` bytes at offset `off`, of which the bytes `src` can be copied in. None is a panic
        for lack of free blocks. Otherwise the file becomes its old bytes with the new ones spliced in,
        up to the end of its old or new size; every other file keeps its bytes; and at most two blocks per
        block touched are logged, plus three. What a failing copy stored past the count returned is in the
        file as well, below its size, though not logged. */
    method Writei(i: nat, off: Word, n: Word, src: seq<Byte>) returns (r: Option<int>)
      requires Valid() && i < |inodes|
      modifies this
      ensures Sound() && |inodes| == |old(inodes)| && NoHoles(old(blocks), old(inodes), i)
      ensures r.None? ==> Full()
      ensures r.Some? ==> Valid() && NoHoles(blocks, inodes, i)
      ensures off > old(inodes)[i].size || Overflows(off, n) || off + n > MAXBYTES ==>
                && r == Some(-1) && blocks == old(blocks) && inodes == old(inodes) && owner == old(owner)
                && logged == old(logged)
      ensures off <= old(inodes)[i].size && !Overflows(off, n) && off + n <= MAXBYTES ==>
                var lo, hi := off / BSIZE, off / BSIZE + Chunks(off, n);
                && Gains(sb, old(owner), owner, logged, i, lo, hi)
                && (r.None? ==> Lacks(blocks, inodes, i, lo, hi))
                && (r.Some? && n <= |src| ==> TouchLogged(owner, logged, i, lo, hi) && InodeBlock(sb, i) in logged)
      ensures off <= old(inodes)[i].size && !Overflows(off, n) && off + n <= MAXBYTES && r.Some? ==>
                var tot := if n <= |src| then n else Whole(off, |src|);
                && r == Some(tot) && tot <= Min(n, |src|)
                && FileBytes(blocks, inodes, i) ==
                     SpliceTo(FileBytes(old(blocks), old(inodes), i), off, src[..Min(n, |src|)], off + tot)
                && (forall p: nat | p < |inodes| && p != i :: FileKept(old(blocks), old(inodes), blocks, inodes, p))
                && |logged - old(logged)| <= 2 * Chunks(off, n) + 3 - (if n > 0 then Partial(off) else 0)
    {
      hide Marks, Pointers, Wrote, Keeps, DataAt, Mapped, NoHoles, MappedTo, Accounts, Whole, Chunks, FileBytes,
          SpliceTo, Gains, TouchLogged, Lacks;
      assert NoHoles(blocks, inodes, i);
      SizeBound(i);
      if off > inodes[i].size || Overflows(off, n) {
        return Some(-1);
      }
      if off + n > MAXBYTES {
        return Some(-1);
      }
      ghost var b0, i0, lo := blocks, inodes, off / BSIZE;
      var panicked, tot, data, maps := WriteBlocks(i, off, n, src);
      if panicked {
        return None;
      }
      AccountsSize(old(logged), logged, data, maps, inodes[i], InodeBlock(sb, i));
      FinishWrite(i, off + tot, b0, i0, off, src[..Min(n, |src|)]);
      ghost var l1 := logged;
      Iupdate(i);
      GainsMore(sb, old(owner), owner, l1, logged, i, lo, lo + Chunks(off, n), lo + Chunks(off, n));
      if n <= |src| {
        TouchMoreLog(owner, l1, logged, i, lo, lo + Chunks(off, n));
      }
      r := Some(tot);
    }

    /** The end of `writei`: the size grows to cover what was written. */
    method FinishWrite(i: nat, end: nat, ghost b0: seq<Block>, ghost i0: seq<Inode>, ghost off: nat,
                       ghost data: seq<Byte>)
      requires Sound() && i < |inodes| == |i0| && off <= end <= off + |data| <= MAXBYTES && off <= i0[i].size
      requires forall p: nat | p < |i0| :: NoHoles(b0, i0, p)
      requires Keeps(b0, i0, blocks, inodes) && Wrote(b0, i0, blocks, inodes, i, off, data)
      requires MappedTo(blocks, inodes, i, end)
      modifies this`inodes
      ensures Valid() && |inodes| == |i0| && inodes[i].addrs == old(inodes)[i].addrs && NoHoles(b0, i0, i)
      ensures NoHoles(blocks, inodes, i)
      ensures |FileBytes(b0, i0, i)| == i0[i].size
      ensures FileBytes(blocks, inodes, i) == SpliceTo(FileBytes(b0, i0, i), off, data, end)
      ensures forall p: nat | p < |inodes| && p != i :: FileKept(b0, i0, blocks, inodes, p)
    {
      assert NoHoles(b0, i0, i);
      FileLength(b0, i0, i);
      hide Marks, Pointers, Wrote, DataAt, Mapped, MappedTo, FileBytes, SpliceTo;
      ghost var i1 := inodes;
      assert MetaKept(i0, i1, i) && NoHoles(b0, i0, i);
      var size := inodes[i].size;
      if end > size {
        size := end;
      }
      inodes := inodes[i := inodes[i].(size := size)];
      SameAddrs(sb, blocks, i1, inodes, owner);
      WroteResized(b0, i0, blocks, i1, inodes, i, off, data);
      WroteSplices(b0, i0, blocks, inodes, i, off, data, end);
      forall p: nat | p < |inodes|
        ensures NoHoles(blocks, inodes, p)
        ensures p != i ==> FileKept(b0, i0, blocks, inodes, p)
      {
        assert MetaKept(i0, i1, p) && NoHoles(b0, i0, p);
        NoHolesAfter(b0, i0, blocks, i1, inodes, i, end, p);
        if p != i {
          OthersKept(b0, i0, blocks, inodes, i, off, data, p);
        }
      }
    }

    /** One transaction of `filewrite`: `n` bytes at offset `off`, at most three blocks' length. `done`
        bytes count as written, and `stored` have been stored. */
    method WriteOp(i: nat, off: Word, n: Word, src: seq<Byte>)
      returns (r: Option<int>, ghost done: nat, ghost stored: nat)
      requires Valid() && i < |inodes| && n <= 3 * BSIZE
      modifies this
      ensures Sound() && |inodes| == |old(inodes)|
      ensures r.None? ==> Full()
      ensures off <= old(inodes)[i].size && off + n <= MAXBYTES ==>
                var lo, hi := off / BSIZE, off / BSIZE + Chunks(off, n);
                && Gains(sb, old(owner), owner, logged, i, lo, hi) && (r.None? ==> Lacks(blocks, inodes, i, lo, hi))
                && (r.Some? ==> r.value == (if n <= |src| then n else Whole(off, |src|)) && stored == Min(n, |src|))
                && (r.Some? && n <= |src| ==> TouchLogged(owner, logged, i, lo, hi) && InodeBlock(sb, i) in logged)
      ensures !(off <= old(inodes)[i].size && off + n <= MAXBYTES) ==> r == Some(-1)
      ensures r.Some? ==> Valid() && |logged| <= MAXOPBLOCKS && done == (if r.value > 0 then r.value else 0)
                          && done <= stored <= |src| && r.value <= n && off + done < 0x1_0000_0000
                          && (r.value == n ==> stored == done)
                          && Written(old(blocks), old(inodes), blocks, inodes, i, off, src[..stored], off + done)
    {
      hide Marks, Pointers, FileBytes, SpliceTo, Chunks, NoHoles, Whole, Gains, TouchLogged, Lacks;
      ghost var b0, i0 := blocks, inodes;
      assert NoHoles(b0, i0, i);
      SizeBound(i);
      logged := {};
      r := Writei(i, off, n, src);
      done, stored := 0, 0;
      if r.Some? {
        SizeBound(i);
        if off <= i0[i].size && !Overflows(off, n) && off + n <= MAXBYTES {
          done, stored := r.value, Min(n, |src|);
          ChunkFits(off, n);
          assert logged - {} == logged;
          WholeFits(off, n, |src|);
        } else {
          WrittenNothing(b0, i0, i, off);
          assert src[..0] == [];
        }
      }
    }

    /** Write `n` bytes of a file open at offset `start`, in chunks of at most three blocks' length,
        each a transaction of its own. `ops` are the sets of blocks the transactions log. Where the bytes
        to write cannot all be read, the last chunk stores what can be read of it, though `off` does not
        count all of that. The answer is -1 exactly when not all of the write is possible. */
    method Filewrite(i: nat, start: Word, n: int, src: seq<Byte>)
      returns (ret: Option<int>, off: Word, ghost ops: seq<set<nat>>, ghost stored: nat)
      requires Valid() && i < |inodes|
      modifies this
      ensures forall t | 0 <= t < |ops| :: |ops[t]| <= MAXOPBLOCKS
      ensures Sound() && |inodes| == |old(inodes)|
      ensures ret.None? ==> n > 0 && Full() && Lacks(blocks, inodes, i, start / BSIZE, start / BSIZE + Chunks(start, n))
      ensures n < 0 ==> ret == Some(-1)
      ensures ret.Some? ==>
                && Valid() && start <= off <= start + stored <= start + |src| && (ret == Some(n) || ret == Some(-1))
                && (n >= 0 ==> (ret == Some(n) <==> off == start + n))
                && (ret == Some(n) && n >= 0 ==> off == start + stored)
                && (n >= 0 ==> (ret == Some(n) <==> CanWrite(old(inodes)[i].size, start, n, |src|)))
                && Written(old(blocks), old(inodes), blocks, inodes, i, start, src[..stored], off)
    {
      hide Marks, Pointers, NoHoles, Written, Lacks, Chunks;
      ghost var b0, i0 := blocks, inodes;
      WrittenNothing(b0, i0, i, start);
      var k := 0;
      off, ops, stored := start, [], 0;
      while k < n
        invariant 0 <= k && (n >= 0 ==> k <= n) && off == start + k && k == stored <= |src|
        invariant Valid() && |inodes| == |i0|
        invariant forall t | 0 <= t < |ops| :: |ops[t]| <= MAXOPBLOCKS
        invariant Written(b0, i0, blocks, inodes, i, start, src[..k], start + k)
        invariant k > 0 ==> CanWrite(i0[i].size, start, k, |src|)
      {
        var n1 := n - k;
        if n1 > 3 * BSIZE {
          n1 := 3 * BSIZE;
        }
        ghost var b1, i1 := blocks, inodes;
        WrittenSize(b0, i0, b1, i1, i, start, src[..k]);
        var r, done, more := WriteOp(i, off, n1, src[k..]);
        if r.None? {
          LacksMore(blocks, inodes, i, start, n, k, n1);
          return None, off, ops, stored;
        }
        WrittenTrans(b0, i0, b1, i1, blocks, inodes, i, start, src[..k], src[k..][..more], start + k + done);
        assert src[..k] + src[k..][..more] == src[..k + more];
        ops, stored := ops + [logged], k + more;
        if r.value > 0 {
          off := off + r.value;
        }
        if r.value != n1 {
          return Some(-1), off, ops, stored;
        }
        k := k + r.value;
      }
      ret := Some(if k == n then n else -1);
    }
  }
}
