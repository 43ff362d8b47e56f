/** A disk on which one chunk of `filewrite` logs as many blocks as a transaction may. */
module WorstChunk {
  import opened Basics
  import opened Words
  import opened Bitmap
  import opened Inodes
  import opened Files

  /** Four bitmap blocks, of which the first covers one data block and the last another one. */
  const SB: Super := Super(24577, 2100, 8000, 8187, 8191)

  /** The number of blocks below `n` that go to neither file 1 nor file 2. */
  function Rest(n: nat): nat {
    if n <= 8205 then 0
    else n - 8205 - (if n > 16384 then 1 else 0) - (if n > 24576 then 1 else 0)
  }

  /** The slot that every block is given to: file 1 has twelve blocks, file 2 four blocks in four bitmap
      blocks, and other files have all the others. */
  function Who(b: nat): Slot {
    if b == 8191 then Slot(2, 0)
    else if b == 8192 then Slot(2, 1)
    else if b == 16384 then Slot(2, 2)
    else if b == 24576 then Slot(2, 3)
    else if 8193 <= b < 8205 then Slot(1, b - 8193)
    else Slot(3 + Rest(b) / 12, Rest(b) % 12)
  }

  function Clamp(x: int): nat {
    if x < 0 then 0 else if x > 12 then 12 else x
  }

  /** How many of the blocks below `n` go to file `i`. */
  function Share(i: nat, n: nat): nat {
    if i == 0 then 0
    else if i == 1 then Clamp(n - 8193)
    else if i == 2 then
      (if n > 8191 then 1 else 0) + (if n > 8192 then 1 else 0) + (if n > 16384 then 1 else 0)
        + (if n > 24576 then 1 else 0)
    else Clamp(Rest(n) - 12 * (i - 3))
  }

  /** The next block of its file. */
  lemma ShareStep(i: nat, n: nat)
    requires 8191 <= n < SB.size
    ensures Share(i, n + 1) == Share(i, n) + if i == Who(n).i then 1 else 0
    ensures i == Who(n).i ==> Share(i, n) == Who(n).j
  {
    var k := Rest(n);
    assert k == 12 * (k / 12) + k % 12;
  }

  lemma WhoFits(b: nat)
    requires 8191 <= b < SB.size
    ensures Who(b).i < SB.ninodes && Who(b).j < NDIRECT
  {
  }

  /** The data blocks below `n` are given out. */
  ghost predicate Given(owner: map<nat, Slot>, n: nat) {
    (forall b: nat :: b in owner <==> 8191 <= b < n) && forall b | b in owner :: owner[b] == Who(b)
  }

  const FIRST: nat := 11265
  const CHUNK: nat := 3072

  /** File 1 ends inside its twelfth block; every other file is as long as its blocks. */
  function SizeOf(i: nat, n: nat): nat {
    if i == 1 && n > 8204 then FIRST else BSIZE * Share(i, n)
  }

  ghost predicate Sized(inodes: seq<Inode>, n: nat) {
    forall i: nat | i < |inodes| :: inodes[i].size == SizeOf(i, n)
  }

  function Zeros(n: nat): seq<Byte> {
    seq(n, _ => 0)
  }

  /** No block below `n` has the slot that block `n` goes to. */
  lemma {:induction false} WhoEarlier(b: nat, n: nat)
    requires 8191 <= b < n < SB.size
    ensures Who(b) != Who(n)
  {
    ShareStep(Who(b).i, b);
    ShareStep(Who(n).i, n);
    ShareGrows(Who(b).i, b + 1, n);
  }

  lemma {:induction false} ShareGrows(i: nat, m: nat, n: nat)
    requires 8191 <= m <= n <= SB.size
    ensures Share(i, m) <= Share(i, n)
    decreases n
  {
    if m < n {
      ShareGrows(i, m, n - 1);
      ShareStep(i, n - 1);
    }
  }

  /** Fill the disk by writing files, block after block. */
  method FillDisk() returns (fs: FileSystem)
    ensures fresh(fs) && fs.sb == SB && fs.Valid() && Given(fs.owner, SB.size) && Sized(fs.inodes, SB.size)
  {
    hide Marks, Pointers, NoHoles;
    fs := new FileSystem(SB);
    NothingYet(fs.inodes);
    var n := SB.datastart;
    while n < SB.size
      invariant 8191 <= n <= SB.size && fs.Valid() && Given(fs.owner, n) && Sized(fs.inodes, n)
    {
      GiveOne(fs, n);
      n := n + 1;
    }
  }

  lemma NothingYet(inodes: seq<Inode>)
    requires forall i: nat | i < |inodes| :: inodes[i].size == 0
    ensures Sized(inodes, 8191)
  {
  }

  /** The write of block `n`: a whole block at the end of its file, except for one. */
  method GiveOne(fs: FileSystem, n: nat)
    requires fs.sb == SB && fs.Valid() && Given(fs.owner, n) && Sized(fs.inodes, n) && 8191 <= n < SB.size
    modifies fs
    ensures fs.Valid() && Given(fs.owner, n + 1) && Sized(fs.inodes, n + 1)
  {
    hide Marks, Pointers, NoHoles, Mapped, Gains, FileBytes, SpliceTo, Lacks, TouchLogged, FileKept;
    ghost var b0, i0, o0 := fs.blocks, fs.inodes, fs.owner;
    WhoFits(n);
    ShareStep(Who(n).i, n);
    var i, j := Who(n).i, Who(n).j;
    var off, len := j * BSIZE, if n == 8204 then 1 else BSIZE;
    OffsetOk(fs.inodes, n);
    fs.SizeBound(i);
    FileLength(b0, i0, i);
    assert Chunks(off, len) == 1 && off / BSIZE == j;
    var r := fs.Writei(i, off, len, Zeros(len));
    if r.None? {
      WriteSucceeds(fs, o0, n);
      assert false;
    }
    assert Zeros(len)[..len] == Zeros(len);
    fs.SizeBound(i);
    SizesAfter(b0, i0, fs.blocks, fs.inodes, n, i, off, len);
    assert NoHoles(fs.blocks, fs.inodes, i);
    LastMapped(fs, i, j);
    GivenNext(fs, o0, n);
  }

  lemma OffsetOk(inodes: seq<Inode>, n: nat)
    requires Sized(inodes, n) && 8191 <= n < SB.size && |inodes| == SB.ninodes
    ensures Who(n).i < |inodes| && inodes[Who(n).i].size == Who(n).j * BSIZE && Who(n).j < NDIRECT
  {
    WhoFits(n);
    ShareStep(Who(n).i, n);
  }

  lemma LastMapped(fs: FileSystem, i: nat, j: nat)
    requires fs.Sound() && i < |fs.inodes| && NoHoles(fs.blocks, fs.inodes, i) && j * BSIZE < fs.inodes[i].size
    ensures j < MAXFILE && Mapped(fs.blocks, fs.inodes, i, j)
  {
  }

  /** A block gained by the write has the one slot it could need. */
  lemma GainedHere(fs: FileSystem, o0: map<nat, Slot>, n: nat, b: nat)
    requires fs.sb == SB && fs.Sound() && Given(o0, n) && 8191 <= n < SB.size && Who(n).j < NDIRECT && b in fs.owner
    requires Gains(SB, o0, fs.owner, fs.logged, Who(n).i, Who(n).j, Who(n).j + 1) && b !in o0
    ensures fs.owner[b] == Who(n) && Who(n).i < |fs.inodes| && Ptr(fs.blocks, fs.inodes[Who(n).i], Who(n).j) as nat == b
    ensures b == n
  {
    hide Ptr, Marks;
    assert GainOk(SB, o0, fs.owner, fs.logged, Who(n).i, Who(n).j, Who(n).j + 1, b);
    assert OwnerOk(SB, fs.blocks, fs.inodes, fs.owner, b);
    assert n < b ==> Taken(SB, fs.owner.Keys, n);
    assert n in fs.owner ==> GainOk(SB, o0, fs.owner, fs.logged, Who(n).i, Who(n).j, Who(n).j + 1, n);
    assert n in fs.owner ==> OwnerOk(SB, fs.blocks, fs.inodes, fs.owner, n);
  }

  /** There is a free block, so the write does not panic. */
  lemma WriteSucceeds(fs: FileSystem, o0: map<nat, Slot>, n: nat)
    requires fs.sb == SB && fs.Sound() && Given(o0, n) && 8191 <= n < SB.size && Who(n).j < NDIRECT && fs.Full()
    requires Gains(SB, o0, fs.owner, fs.logged, Who(n).i, Who(n).j, Who(n).j + 1)
    ensures !Lacks(fs.blocks, fs.inodes, Who(n).i, Who(n).j, Who(n).j + 1)
  {
    hide Pointers, Marks, Gains, Ptr;
    assert Taken(SB, fs.owner.Keys, n);
    GainedHere(fs, o0, n, n);
    var i, lo, hi := Who(n).i, Who(n).j, Who(n).j + 1;
    forall k: nat
      ensures !LacksAt(fs.blocks, fs.inodes, i, lo, hi, k)
    {
    }
  }

  /** With its block there, the write has taken block `n` and no other. */
  lemma GivenNext(fs: FileSystem, o0: map<nat, Slot>, n: nat)
    requires fs.sb == SB && fs.Sound() && Given(o0, n) && 8191 <= n < SB.size && Who(n).j < NDIRECT
    requires Gains(SB, o0, fs.owner, fs.logged, Who(n).i, Who(n).j, Who(n).j + 1)
    requires Who(n).i < |fs.inodes| && Mapped(fs.blocks, fs.inodes, Who(n).i, Who(n).j)
    ensures Given(fs.owner, n + 1)
  {
    hide Ptr, Marks;
    var b := Ptr(fs.blocks, fs.inodes[Who(n).i], Who(n).j) as nat;
    PtrOwned(SB, fs.blocks, fs.inodes, fs.owner, Who(n).i, Who(n).j);
    if b in o0 {
      assert GainOk(SB, o0, fs.owner, fs.logged, Who(n).i, Who(n).j, Who(n).j + 1, b);
      WhoEarlier(b, n);
    }
    GainedHere(fs, o0, n, b);
    forall c: nat | c in fs.owner
      ensures 8191 <= c < n + 1 && fs.owner[c] == Who(c)
    {
      assert GainOk(SB, o0, fs.owner, fs.logged, Who(n).i, Who(n).j, Who(n).j + 1, c);
      if c !in o0 {
        GainedHere(fs, o0, n, c);
      }
    }
  }

  lemma SizesAfter(b0: seq<Block>, i0: seq<Inode>, b1: seq<Block>, i1: seq<Inode>, n: nat, i: nat, off: nat, len: nat)
    requires Sized(i0, n) && |i1| == |i0| && i < |i0| && 8191 <= n < SB.size && i == Who(n).i && off == Who(n).j * BSIZE
    requires len == (if n == 8204 then 1 else BSIZE) && i0[i].size == off <= MAXBYTES && i1[i].size <= MAXBYTES
    requires |FileBytes(b0, i0, i)| == off
    requires FileBytes(b1, i1, i) == SpliceTo(FileBytes(b0, i0, i), off, Zeros(len), off + len)
    requires forall p: nat | p < |i0| && p != i :: FileKept(b0, i0, b1, i1, p)
    ensures Sized(i1, n + 1)
  {
    FileLength(b0, i0, i);
    FileLength(b1, i1, i);
    forall p: nat | p < |i1|
      ensures i1[p].size == SizeOf(p, n + 1)
    {
      ShareStep(p, n);
      if p != i {
        KeptSize(b0, i0, b1, i1, p);
      }
    }
  }

  lemma KeptSize(b0: seq<Block>, i0: seq<Inode>, b1: seq<Block>, i1: seq<Inode>, p: nat)
    requires p < |i0| == |i1| && FileKept(b0, i0, b1, i1, p)
    ensures i1[p].size == i0[p].size
  {
  }

  lemma FirstMapped(fs: FileSystem, n: nat)
    requires fs.sb == SB && fs.Sound() && n < 12 && 8193 + n in fs.owner && fs.owner[8193 + n] == Slot(1, n)
    ensures 1 < |fs.inodes| && Mapped(fs.blocks, fs.inodes, 1, n)
  {
    assert OwnerOk(SB, fs.blocks, fs.inodes, fs.owner, 8193 + n);
  }

  /** All blocks but four are given out. */
  ghost predicate FourLeft(owner: map<nat, Slot>) {
    && (forall b: nat :: b in owner <==> 8191 <= b < SB.size && b !in {8191, 8192, 16384, 24576})
    && forall b | b in owner :: owner[b] == Who(b)
  }

  lemma Truncated(o0: map<nat, Slot>)
    requires Given(o0, SB.size)
    ensures FourLeft(Others(o0, 2))
  {
    assert forall b: nat | 8191 <= b < SB.size :: Who(b).i == 2 <==> b in {8191, 8192, 16384, 24576};
  }

  /** A block gained by the chunk goes to the indirect slot or one of the three entries. */
  lemma GainedSlot(fs: FileSystem, o0: map<nat, Slot>, b: nat)
    requires fs.sb == SB && fs.Sound() && FourLeft(o0) && Gains(SB, o0, fs.owner, fs.logged, 1, 11, 15)
    requires b in fs.owner && b !in o0
    ensures b in {8191, 8192, 16384, 24576} && fs.owner[b].i == 1 && 12 <= fs.owner[b].j <= 15
    ensures 1 < |fs.inodes| && Ptr(fs.blocks, fs.inodes[1], fs.owner[b].j) as nat == b
    ensures b in fs.logged && BitBlock(SB, b) in fs.logged
  {
    hide Ptr;
    assert OwnerOk(SB, fs.blocks, fs.inodes, fs.owner, b) && GainOk(SB, o0, fs.owner, fs.logged, 1, 11, 15, b);
    assert 8204 in o0 && 8204 in fs.owner && GainOk(SB, o0, fs.owner, fs.logged, 1, 11, 15, 8204);
    assert OwnerOk(SB, fs.blocks, fs.inodes, fs.owner, 8204);
  }

  /** If all four were taken, no block of the chunk is missing: the panic cannot happen. */
  lemma ChunkSucceeds(fs: FileSystem, o0: map<nat, Slot>)
    requires fs.sb == SB && fs.Sound() && FourLeft(o0) && Gains(SB, o0, fs.owner, fs.logged, 1, 11, 15) && fs.Full()
    ensures !Lacks(fs.blocks, fs.inodes, 1, 11, 15)
  {
    hide Marks, Pointers, Gains, Ptr;
    forall b | b in {8191, 8192, 16384, 24576}
      ensures b in fs.owner && fs.owner[b].i == 1 && 12 <= fs.owner[b].j <= 15 && 1 < |fs.inodes|
              && Ptr(fs.blocks, fs.inodes[1], fs.owner[b].j) as nat == b
    {
      assert Taken(SB, fs.owner.Keys, b);
      GainedSlot(fs, o0, b);
    }
    var j0, j1, j2, j3 := fs.owner[8191].j, fs.owner[8192].j, fs.owner[16384].j, fs.owner[24576].j;
    assert j0 != j1 && j0 != j2 && j0 != j3 && j1 != j2 && j1 != j3 && j2 != j3;
    TwelfthKept(fs, o0);
    forall n: nat
      ensures !LacksAt(fs.blocks, fs.inodes, 1, 11, 15, n)
    {
      assert 12 <= n < 15 ==> SlotOf(n) == j0 || SlotOf(n) == j1 || SlotOf(n) == j2 || SlotOf(n) == j3;
    }
  }

  lemma TwelfthKept(fs: FileSystem, o0: map<nat, Slot>)
    requires fs.sb == SB && fs.Sound() && FourLeft(o0) && Gains(SB, o0, fs.owner, fs.logged, 1, 11, 15)
    ensures 1 < |fs.inodes| && Mapped(fs.blocks, fs.inodes, 1, 11) && 8204 in fs.owner && fs.owner[8204] == Slot(1, 11)
  {
    hide Ptr;
    assert 8204 in o0 && o0[8204] == Who(8204) == Slot(1, 11);
    assert GainOk(SB, o0, fs.owner, fs.logged, 1, 11, 15, 8204);
    FirstMapped(fs, 11);
  }

  /** A pointer of file 1 beyond its direct blocks is one of the four blocks that were left, and logged. */
  lemma NewPointer(fs: FileSystem, o0: map<nat, Slot>, j: nat)
    requires fs.sb == SB && fs.Sound() && FourLeft(o0) && Gains(SB, o0, fs.owner, fs.logged, 1, 11, 15)
    requires 12 <= j < NSLOTS
    requires 1 < |fs.inodes| && Ptr(fs.blocks, fs.inodes[1], j) != 0
    ensures var b := Ptr(fs.blocks, fs.inodes[1], j) as nat;
            && b in {8191, 8192, 16384, 24576} && b in fs.owner && fs.owner[b] == Slot(1, j) && b in fs.logged
            && BitBlock(SB, b) in fs.logged
  {
    hide Ptr, Marks;
    PtrOwned(SB, fs.blocks, fs.inodes, fs.owner, 1, j);
    var b := Ptr(fs.blocks, fs.inodes[1], j) as nat;
    assert GainOk(SB, o0, fs.owner, fs.logged, 1, 11, 15, b);
    GainedSlot(fs, o0, b);
  }

  /** With all blocks of the chunk there, all four that were left have been taken and logged. */
  lemma AllFourLogged(fs: FileSystem, o0: map<nat, Slot>)
    requires fs.sb == SB && fs.Sound() && FourLeft(o0) && Gains(SB, o0, fs.owner, fs.logged, 1, 11, 15)
    requires 1 < |fs.inodes| && forall n: nat | 12 <= n < 15 :: Mapped(fs.blocks, fs.inodes, 1, n)
    ensures forall b | b in {8191, 8192, 16384, 24576} :: b in fs.logged && BitBlock(SB, b) in fs.logged
  {
    assert Mapped(fs.blocks, fs.inodes, 1, 12) && Mapped(fs.blocks, fs.inodes, 1, 13)
        && Mapped(fs.blocks, fs.inodes, 1, 14);
    MappedIndirect(fs.blocks, fs.inodes, 1, 12);
    DirectPtr(fs.blocks, fs.inodes[1], NDIRECT);
    hide Ptr, Marks, Pointers, Gains;
    forall j: nat | 12 <= j < 16
      ensures Ptr(fs.blocks, fs.inodes[1], j) != 0
    {
      assert j == NDIRECT || Mapped(fs.blocks, fs.inodes, 1, j - 1);
    }
    NewPointer(fs, o0, 12);
    NewPointer(fs, o0, 13);
    NewPointer(fs, o0, 14);
    NewPointer(fs, o0, 15);
  }

  /** There is a sound file system, which the code itself brings about, and a chunk of three blocks'
      length whose transaction logs MAXOPBLOCKS blocks. */
  method WorstWrite() returns (fs: FileSystem, r: Option<int>)
    ensures fresh(fs) && fs.Valid() && r == Some(CHUNK) && |fs.logged| == MAXOPBLOCKS
  {
    hide Marks, Pointers, NoHoles, Mapped, Gains, FileBytes, SpliceTo, Lacks, TouchLogged, Written, Others;
    fs := FillDisk();
    assert fs.inodes[1].size == FIRST;
    Truncated(fs.owner);
    fs.Itrunc(2);
    ghost var o0, b0, i0 := fs.owner, fs.blocks, fs.inodes;
    assert Chunks(FIRST, CHUNK) == 4;
    ghost var done, stored;
    r, done, stored := fs.WriteOp(1, FIRST, CHUNK, Zeros(CHUNK));
    if r.None? {
      ChunkSucceeds(fs, o0);
      assert false;
    }
    assert Zeros(CHUNK)[..stored] == Zeros(CHUNK);
    SizeAfter(b0, i0, fs.blocks, fs.inodes);
    TenLogged(fs, o0);
  }

  lemma SizeAfter(b0: seq<Block>, i0: seq<Inode>, b1: seq<Block>, i1: seq<Inode>)
    requires 1 < |i0| && i0[1].size == FIRST && Written(b0, i0, b1, i1, 1, FIRST, Zeros(CHUNK), FIRST + CHUNK)
    ensures i1[1].size == FIRST + CHUNK
  {
    FileLength(b0, i0, 1);
    FileLength(b1, i1, 1);
    hide FileBytes;
  }

  lemma TenLogged(fs: FileSystem, o0: map<nat, Slot>)
    requires fs.sb == SB && fs.Valid() && FourLeft(o0) && Gains(SB, o0, fs.owner, fs.logged, 1, 11, 15)
    requires |fs.logged| <= MAXOPBLOCKS
    requires fs.inodes[1].size == FIRST + CHUNK && TouchLogged(fs.owner, fs.logged, 1, 11, 15)
    requires InodeBlock(SB, 1) in fs.logged
    ensures |fs.logged| == MAXOPBLOCKS
  {
    assert NoHoles(fs.blocks, fs.inodes, 1);
    assert forall n: nat | 12 <= n < 15 :: Mapped(fs.blocks, fs.inodes, 1, n);
    hide Marks, Pointers, NoHoles, Mapped, Gains;
    AllFourLogged(fs, o0);
    TwelfthKept(fs, o0);
    assert 8204 in fs.logged;
    assert BitBlock(SB, 8191) == 8187 && BitBlock(SB, 8192) == 8188 && BitBlock(SB, 16384) == 8189
        && BitBlock(SB, 24576) == 8190;
    TenBlocks(fs.logged);
  }

  lemma TenBlocks(logged: set<nat>)
    requires 8000 in logged && 8187 in logged && 8188 in logged && 8189 in logged && 8190 in logged
    requires 8191 in logged && 8192 in logged && 8204 in logged && 16384 in logged && 24576 in logged
    ensures |logged| >= 10
  {
    AtLeast(logged, [8000, 8187, 8188, 8189, 8190, 8191, 8192, 8204, 16384, 24576]);
  }

  lemma {:induction false} AtLeast(s: set<nat>, t: seq<nat>)
    requires (forall i | 0 <= i < |t| :: t[i] in s) && forall i | 0 < i < |t| :: t[i - 1] < t[i]
    ensures |s| >= |t|
  {
    if t != [] {
      Ascending(t, |t| - 1);
      AtLeast(s - {t[|t| - 1]}, t[..|t| - 1]);
    }
  }

  lemma {:induction false} Ascending(t: seq<nat>, k: nat)
    requires k < |t| && forall i | 0 < i < |t| :: t[i - 1] < t[i]
    ensures forall i | 0 <= i < k :: t[i] < t[k]
  {
    if k > 0 {
      Ascending(t, k - 1);
    }
  }
}
