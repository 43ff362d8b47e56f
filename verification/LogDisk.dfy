/** The on-disk redo log of kernel/log.c: its header, its block writes, and what a crash between any two leaves. */
module LogDisk {
  import opened Words

  const LOGSIZE := MAXOPBLOCKS * 3

  /** `log.start` and `log.size`: the header block followed by `size - 1` data blocks. */
  datatype Geometry = Geometry(start: nat, size: nat)

  type Disk = seq<Block>

  /** One block written to the disk; a crash never splits it. */
  datatype Write = Write(bno: nat, data: Block)

  predicate NoRepeats(list: seq<Word>) {
    forall i, j | 0 <= i < j < |list| :: list[i] != list[j]
  }

  predicate InLog(g: Geometry, b: int) {
    g.start <= b < g.start + g.size
  }

  function Apply(d: Disk, w: Write): (r: Disk)
    requires w.bno < |d|
  {
    d[w.bno := w.data]
  }

  predicate InRange(d: Disk, ws: seq<Write>) {
    forall i | 0 <= i < |ws| :: ws[i].bno < |d|
  }

  /** The disk after the first `k` of the writes `ws`. */
  function After(d: Disk, ws: seq<Write>, k: nat): (r: Disk)
    requires InRange(d, ws) && k <= |ws|
    ensures |r| == |d|
  {
    if k == 0 then d else Apply(After(d, ws, k - 1), ws[k - 1])
  }

  /** The writes from `lo` to `hi` leave alone every block they do not name. */
  lemma {:induction false} Untouched(d: Disk, ws: seq<Write>, lo: nat, hi: nat, b: nat)
    requires InRange(d, ws) && lo <= hi <= |ws| && b < |d|
    requires forall i | lo <= i < hi :: ws[i].bno != b
    ensures After(d, ws, hi)[b] == After(d, ws, lo)[b]
  {
    if lo < hi {
      Untouched(d, ws, lo, hi - 1, b);
    }
  }

  /** A block keeps what write `k` put there until another write names it. */
  lemma Stays(d: Disk, ws: seq<Write>, k: nat, hi: nat)
    requires InRange(d, ws) && k < hi <= |ws|
    requires forall i | k < i < hi :: ws[i].bno != ws[k].bno
    ensures After(d, ws, hi)[ws[k].bno] == ws[k].data
  {
    Untouched(d, ws, k + 1, hi, ws[k].bno);
  }

  // ----- the header block -----

  /** `lh->n` of a header block. */
  function HeadCount(b: Block): Word {
    ReadWord(b, 0)
  }

  /** The block numbers a header block lists. */
  function HeadList(b: Block): (r: seq<Word>)
    requires HeadCount(b) <= LOGSIZE
  {
    seq(HeadCount(b), (i: nat) requires i < HeadCount(b) => ReadWord(b, 1 + i))
  }

  /** Byte `j` of a header block listing `list`, written over the block `b`. */
  function HeadByte(b: Block, list: seq<Word>, j: nat): Byte
    requires |list| <= LOGSIZE && j < BSIZE
  {
    if j < 4 then WordByte(|list|, j)
    else if j < 4 + 4 * |list| then WordByte(list[j / 4 - 1], j % 4)
    else b.bytes[j]
  }

  /** The header block listing `list`; words past the list keep what `b` had there. */
  function EncodeHead(b: Block, list: seq<Word>): (r: Block)
    requires |list| <= LOGSIZE
  {
    Block(seq(BSIZE, (j: nat) requires j < BSIZE => HeadByte(b, list, j)))
  }

  lemma HeadWord(b: Block, list: seq<Word>, i: nat)
    requires |list| <= LOGSIZE && i <= |list|
    ensures ReadWord(EncodeHead(b, list), i) == if i == 0 then |list| else list[i - 1]
  {
    var r := EncodeHead(b, list);
    var v: Word := if i == 0 then |list| else list[i - 1];
    forall k: nat | k < 4
      ensures r.bytes[4 * i + k] == WordByte(v, k)
    {
      var j := 4 * i + k;
      assert j / 4 == i && j % 4 == k;
      assert r.bytes[j] == HeadByte(b, list, j);
    }
    ReadsBack(r, i, v);
  }

  /** Writing a header over any stale one and reading it back gives the same list. */
  lemma HeadRoundTrip(b: Block, list: seq<Word>)
    requires |list| <= LOGSIZE
    ensures HeadCount(EncodeHead(b, list)) == |list|
    ensures HeadList(EncodeHead(b, list)) == list
  {
    HeadWord(b, list, 0);
    forall i | 0 <= i < |list|
      ensures HeadList(EncodeHead(b, list))[i] == list[i]
    {
      HeadWord(b, list, i + 1);
    }
  }

  // ----- what the disk holds logically -----

  /** A list of home blocks that fits the log and the disk. */
  predicate GoodList(g: Geometry, n: nat, list: seq<Word>) {
    && |list| <= LOGSIZE
    && |list| < g.size
    && forall i | 0 <= i < |list| :: list[i] < n && !InLog(g, list[i])
  }

  /** The log fits on the disk and its header lists only home blocks. */
  predicate GoodDisk(g: Geometry, d: Disk) {
    && 0 < g.size
    && g.start + g.size <= |d|
    && HeadCount(d[g.start]) <= LOGSIZE
    && GoodList(g, |d|, HeadList(d[g.start]))
  }

  function Listed(g: Geometry, d: Disk): seq<Word>
    requires GoodDisk(g, d)
  {
    HeadList(d[g.start])
  }

  /** The `i`th data block of the log. */
  function LogBlock(g: Geometry, d: Disk, i: nat): Block
    requires g.start + 1 + i < |d|
  {
    d[g.start + 1 + i]
  }

  function LastIndex(list: seq<Word>, b: int): (i: nat)
    requires b in list
    ensures i < |list| && list[i] == b
    ensures forall j | i < j < |list| :: list[j] != b
  {
    if list[|list| - 1] == b then |list| - 1 else LastIndex(list[..|list| - 1], b)
  }

  /** What block `b` stands for: its logged copy while the header lists it, else its home copy. */
  function LogicalAt(g: Geometry, d: Disk, b: nat): Block
    requires GoodDisk(g, d) && b < |d|
  {
    if b in Listed(g, d) then LogBlock(g, d, LastIndex(Listed(g, d), b)) else d[b]
  }

  /** The logical contents of the home blocks; the log region itself reads as zero. */
  function Logical(g: Geometry, d: Disk): (r: Disk)
    requires GoodDisk(g, d)
    ensures |r| == |d|
  {
    seq(|d|, (b: nat) requires b < |d| => if InLog(g, b) then ZERO_BLOCK else LogicalAt(g, d, b))
  }

  /** The home blocks as they physically are. */
  function Home(g: Geometry, d: Disk): (r: Disk)
    ensures |r| == |d|
  {
    seq(|d|, (b: nat) requires b < |d| => if InLog(g, b) then ZERO_BLOCK else d[b])
  }

  // ----- write sequences -----

  /** `install_trans`: log block `i` goes to home block `list[i]`. */
  function InstallWrites(g: Geometry, d: Disk, list: seq<Word>): (r: seq<Write>)
    requires g.start + 1 + |list| <= |d|
  {
    seq(|list|, (i: nat) requires i < |list| => Write(list[i], LogBlock(g, d, i)))
  }

  /** `recover_from_log`: install what the header lists, then clear the header. */
  function RecoverWrites(g: Geometry, d: Disk): (r: seq<Write>)
    requires GoodDisk(g, d)
  {
    InstallWrites(g, d, Listed(g, d)) + [Write(g.start, EncodeHead(d[g.start], []))]
  }

  /** The two header blocks a commit writes: first listing its blocks, then listing none. */
  datatype Heads = Heads(full: Block, clear: Block)

  predicate IsHead(b: Block, list: seq<Word>) {
    HeadCount(b) == |list| <= LOGSIZE && HeadList(b) == list
  }

  /** The headers that `write_head` makes out of the header block `head`. */
  function CommitHeads(head: Block, list: seq<Word>): (hs: Heads)
    requires |list| <= LOGSIZE
  {
    Heads(EncodeHead(head, list), EncodeHead(EncodeHead(head, list), []))
  }

  lemma CommitHeadsOk(head: Block, list: seq<Word>)
    requires |list| <= LOGSIZE
    ensures IsHead(CommitHeads(head, list).full, list) && IsHead(CommitHeads(head, list).clear, [])
  {
    HeadRoundTrip(head, list);
    HeadRoundTrip(EncodeHead(head, list), []);
  }

  /** The `i`th write of `commit` for a header listing `list` over cached contents `mem`:
      first the log blocks, then the header, then the home blocks, then the cleared header. */
  function CommitWrite(g: Geometry, hs: Heads, list: seq<Word>, mem: Disk, i: nat): Write
    requires GoodList(g, |mem|, list) && i < 2 * |list| + 2
  {
    var n := |list|;
    if i < n then Write(g.start + 1 + i, mem[list[i]])
    else if i == n then Write(g.start, hs.full)
    else if i <= 2 * n then Write(list[i - n - 1], mem[list[i - n - 1]])
    else Write(g.start, hs.clear)
  }

  function CommitWrites(g: Geometry, hs: Heads, list: seq<Word>, mem: Disk): (r: seq<Write>)
    requires GoodList(g, |mem|, list)
    ensures |r| == 2 * |list| + 2
  {
    seq(2 * |list| + 2, (i: nat) requires i < 2 * |list| + 2 => CommitWrite(g, hs, list, mem, i))
  }

  /** The header's list after logging block `b`. */
  function Absorb(list: seq<Word>, b: Word): seq<Word> {
    if b in list then list else list + [b]
  }

  // ----- recovery -----

  lemma RecoverInRange(g: Geometry, d: Disk)
    requires GoodDisk(g, d)
    ensures InRange(d, RecoverWrites(g, d))
  {
  }

  /** Block `b` after the first `k` installations. */
  lemma {:induction false} InstalledAt(g: Geometry, d: Disk, list: seq<Word>, ws: seq<Write>, k: nat, b: nat)
    requires InRange(d, ws) && k <= |list| <= |ws| && g.start + |list| < |d| && b < |d|
    requires forall i | 0 <= i < |list| :: ws[i] == Write(list[i], LogBlock(g, d, i))
    ensures After(d, ws, k)[b] == if b in list[..k] then LogBlock(g, d, LastIndex(list[..k], b)) else d[b]
  {
    if k > 0 {
      InstalledAt(g, d, list, ws, k - 1, b);
      assert list[..k][..k - 1] == list[..k - 1];
      assert ws[k - 1] == Write(list[k - 1], LogBlock(g, d, k - 1));
    }
  }

  /** The disk after the first `k` installations of a recovery. */
  lemma InstallPrefix(g: Geometry, d: Disk, k: nat)
    requires GoodDisk(g, d) && k <= |Listed(g, d)|
    ensures InRange(d, RecoverWrites(g, d))
    ensures var e, list := After(d, RecoverWrites(g, d), k), Listed(g, d);
            forall b | 0 <= b < |d| :: e[b] == if b in list[..k] then LogBlock(g, d, LastIndex(list[..k], b)) else d[b]
  {
    RecoverInRange(g, d);
    forall b: nat | b < |d| {
      InstalledAt(g, d, Listed(g, d), RecoverWrites(g, d), k, b);
    }
  }

  /** Two good disks with the same header and log blocks, one of them with some listed blocks
      installed, stand for the same contents. */
  lemma SameLogical(g: Geometry, d: Disk, e: Disk)
    requires GoodDisk(g, d) && |e| == |d|
    requires forall b | 0 <= b < |d| && (InLog(g, b) || b !in Listed(g, d)) :: e[b] == d[b]
    ensures GoodDisk(g, e) && Listed(g, e) == Listed(g, d)
    ensures Logical(g, e) == Logical(g, d) && RecoverWrites(g, e) == RecoverWrites(g, d)
  {
    assert InLog(g, g.start);
    forall j | 0 <= j < |Listed(g, d)|
      ensures LogBlock(g, e, j) == LogBlock(g, d, j)
    {
      assert InLog(g, g.start + 1 + j);
    }
    forall b | 0 <= b < |d| && !InLog(g, b)
      ensures LogicalAt(g, e, b) == LogicalAt(g, d, b)
    {
    }
    assert InstallWrites(g, e, Listed(g, e)) == InstallWrites(g, d, Listed(g, d));
  }

  /** Recovery cut short before it clears the header. */
  lemma PartialRecovery(g: Geometry, d: Disk, k: nat)
    requires GoodDisk(g, d) && k <= |Listed(g, d)|
    ensures InRange(d, RecoverWrites(g, d))
    ensures var e := After(d, RecoverWrites(g, d), k);
            && GoodDisk(g, e) && Listed(g, e) == Listed(g, d)
            && Logical(g, e) == Logical(g, d) && RecoverWrites(g, e) == RecoverWrites(g, d)
            && forall b | 0 <= b < |d| && b !in Listed(g, d) :: e[b] == d[b]
  {
    InstallPrefix(g, d, k);
    SameLogical(g, d, After(d, RecoverWrites(g, d), k));
  }

  /** The disk once `recover_from_log` has run to completion. */
  function Recovered(g: Geometry, d: Disk): (r: Disk)
    requires GoodDisk(g, d)
    ensures |r| == |d|
  {
    RecoverInRange(g, d);
    After(d, RecoverWrites(g, d), |RecoverWrites(g, d)|)
  }

  /** Clearing the header once every listed block is at its logical contents. */
  lemma ClearInstalled(g: Geometry, d: Disk, e: Disk, head: Block)
    requires GoodDisk(g, d) && |e| == |d|
    requires forall b | 0 <= b < |d| && !InLog(g, b) :: e[b] == LogicalAt(g, d, b)
    ensures var r := Apply(e, Write(g.start, EncodeHead(head, [])));
            GoodDisk(g, r) && Listed(g, r) == [] && Home(g, r) == Logical(g, r) == Logical(g, d)
  {
    HeadRoundTrip(head, []);
    assert Listed(g, e[g.start := EncodeHead(head, [])]) == [];
  }

  /** A completed recovery puts every home block at its logical contents, empties the log,
      and writes nothing but the listed blocks and the header. */
  lemma FullRecovery(g: Geometry, d: Disk)
    requires GoodDisk(g, d)
    ensures var r := Recovered(g, d);
            && GoodDisk(g, r) && Listed(g, r) == []
            && Home(g, r) == Logical(g, r) == Logical(g, d)
            && forall b | 0 <= b < |d| && b != g.start && b !in Listed(g, d) :: r[b] == d[b]
  {
    var n := |Listed(g, d)|;
    assert Listed(g, d)[..n] == Listed(g, d);
    InstallPrefix(g, d, n);
    ClearInstalled(g, d, After(d, RecoverWrites(g, d), n), d[g.start]);
  }

  /** The disk after a series of recoveries, each cut short by a crash after `cuts[i]` writes
      (or run to completion when it has no more than that many). */
  function Crashed(g: Geometry, d: Disk, cuts: seq<nat>): (r: Disk)
    requires GoodDisk(g, d)
    ensures GoodDisk(g, r) && Logical(g, r) == Logical(g, d)
    ensures Listed(g, r) == Listed(g, d) || Listed(g, r) == []
    ensures forall b | 0 <= b < |d| && b != g.start && b !in Listed(g, d) :: r[b] == d[b]
    decreases |cuts|
  {
    if cuts == [] then d
    else if cuts[0] <= |Listed(g, d)| then
      PartialRecovery(g, d, cuts[0]);
      Crashed(g, After(d, RecoverWrites(g, d), cuts[0]), cuts[1..])
    else
      FullRecovery(g, d);
      Crashed(g, Recovered(g, d), cuts[1..])
  }

  // ----- commit -----

  /** The home blocks of `d` with the listed ones taken from `mem`. */
  function Updated(g: Geometry, d: Disk, list: seq<Word>, mem: Disk): (r: Disk)
    requires |mem| == |d|
    ensures |r| == |d|
  {
    seq(|d|, (b: nat) requires b < |d| => if InLog(g, b) then ZERO_BLOCK else if b in list then mem[b] else d[b])
  }

  predicate CanCommit(g: Geometry, d: Disk, hs: Heads, list: seq<Word>, mem: Disk) {
    && GoodDisk(g, d) && Listed(g, d) == []
    && |mem| == |d| && GoodList(g, |d|, list)
    && IsHead(hs.full, list) && IsHead(hs.clear, [])
  }

  /** The header block when `commit` has issued `k` writes. */
  function HeadDuring(head: Block, hs: Heads, n: nat, k: nat): Block {
    if k <= n then head else if k <= 2 * n + 1 then hs.full else hs.clear
  }

  /** Block `b` when `commit` has issued `k` writes. */
  function BlockDuring(g: Geometry, d: Disk, hs: Heads, list: seq<Word>, mem: Disk, k: nat, b: nat): Block
    requires CanCommit(g, d, hs, list, mem) && k <= 2 * |list| + 2 && b < |d|
  {
    var n := |list|;
    if b == g.start then HeadDuring(d[g.start], hs, n, k)
    else if g.start < b <= g.start + n then (if b - g.start <= k then mem[list[b - g.start - 1]] else d[b])
    else if k <= n then d[b]
    else if b in list[..if k <= 2 * n then k - n - 1 else n] then mem[b] else d[b]
  }

  function DiskDuring(g: Geometry, d: Disk, hs: Heads, list: seq<Word>, mem: Disk, k: nat): (r: Disk)
    requires CanCommit(g, d, hs, list, mem) && k <= 2 * |list| + 2
    ensures |r| == |d|
  {
    seq(|d|, (b: nat) requires b < |d| => BlockDuring(g, d, hs, list, mem, k, b))
  }

  lemma DiskDuringStart(g: Geometry, d: Disk, hs: Heads, list: seq<Word>, mem: Disk)
    requires CanCommit(g, d, hs, list, mem)
    ensures DiskDuring(g, d, hs, list, mem, 0) == d
  {
  }

  lemma DiskDuringStep(g: Geometry, d: Disk, hs: Heads, list: seq<Word>, mem: Disk, k: nat)
    requires CanCommit(g, d, hs, list, mem) && k < 2 * |list| + 2
    ensures DiskDuring(g, d, hs, list, mem, k + 1) ==
                Apply(DiskDuring(g, d, hs, list, mem, k), CommitWrite(g, hs, list, mem, k))
  {
    var n := |list|;
    if n < k <= 2 * n {
      assert list[..k - n] == list[..k - n - 1] + [list[k - n - 1]];
    }
    forall b | 0 <= b < |d|
      ensures BlockDuring(g, d, hs, list, mem, k + 1, b) ==
                  Apply(DiskDuring(g, d, hs, list, mem, k), CommitWrite(g, hs, list, mem, k))[b]
    {
    }
  }

  /** The writes of a commit, phase by phase. */
  predicate CommitShape(g: Geometry, hs: Heads, list: seq<Word>, mem: Disk, ws: seq<Write>) {
    && |list| < g.size && g.start + |list| < |mem| && |ws| == 2 * |list| + 2
    && (forall i | 0 <= i < |list| :: list[i] < |mem| && !InLog(g, list[i]))
    && (forall i | 0 <= i < |list| :: ws[i] == Write(g.start + 1 + i, mem[list[i]]))
    && ws[|list|] == Write(g.start, hs.full)
    && (forall j | |list| < j <= 2 * |list| :: ws[j] == Write(list[j - |list| - 1], mem[list[j - |list| - 1]]))
    && ws[|ws| - 1] == Write(g.start, hs.clear)
  }

  lemma CommitHasShape(g: Geometry, d: Disk, hs: Heads, list: seq<Word>, mem: Disk)
    requires CanCommit(g, d, hs, list, mem)
    ensures InRange(d, CommitWrites(g, hs, list, mem)) && CommitShape(g, hs, list, mem, CommitWrites(g, hs, list, mem))
  {
  }

  lemma CommitInRange(g: Geometry, d: Disk, hs: Heads, list: seq<Word>, mem: Disk)
    requires CanCommit(g, d, hs, list, mem)
    ensures InRange(d, CommitWrites(g, hs, list, mem))
  {
  }

  /** `DiskDuring` is the disk after the first `k` writes of the commit. */
  lemma {:induction false} DiskDuringIsAfter(g: Geometry, d: Disk, hs: Heads, list: seq<Word>, mem: Disk,
                                             ws: seq<Write>, k: nat)
    requires CanCommit(g, d, hs, list, mem) && InRange(d, ws) && k <= |ws| == 2 * |list| + 2
    requires forall i | 0 <= i < |ws| :: ws[i] == CommitWrite(g, hs, list, mem, i)
    ensures After(d, ws, k) == DiskDuring(g, d, hs, list, mem, k)
  {
    hide CommitWrite, DiskDuring, Apply;
    if k == 0 {
      DiskDuringStart(g, d, hs, list, mem);
    } else {
      DiskDuringIsAfter(g, d, hs, list, mem, ws, k - 1);
      DiskDuringStep(g, d, hs, list, mem, k - 1);
      assert ws[k - 1] == CommitWrite(g, hs, list, mem, k - 1);
    }
  }

  /** A disk whose log holds `mem`'s copies of `list` stands for `d` updated with them. */
  lemma LogicalIsUpdated(g: Geometry, d: Disk, e: Disk, list: seq<Word>, mem: Disk)
    requires |d| == |e| == |mem| && GoodDisk(g, e) && Listed(g, e) == list
    requires forall i | 0 <= i < |list| :: LogBlock(g, e, i) == mem[list[i]]
    requires forall b | 0 <= b < |d| && !InLog(g, b) && b !in list :: e[b] == d[b]
    ensures Logical(g, e) == Updated(g, d, list, mem)
  {
    forall b | 0 <= b < |d| && !InLog(g, b)
      ensures LogicalAt(g, e, b) == Updated(g, d, list, mem)[b]
    {
      if b in list {
        var i := LastIndex(list, b);
        assert LogBlock(g, e, i) == mem[list[i]];
      }
    }
  }

  /** Before the header write the disk still stands for the old contents. */
  lemma BeforeCommitPoint(g: Geometry, d: Disk, hs: Heads, list: seq<Word>, mem: Disk, k: nat)
    requires CanCommit(g, d, hs, list, mem) && k <= |list|
    ensures var e := DiskDuring(g, d, hs, list, mem, k);
            GoodDisk(g, e) && Listed(g, e) == [] && Logical(g, e) == Home(g, e) == Home(g, d)
  {
    var e := DiskDuring(g, d, hs, list, mem, k);
    assert e[g.start] == d[g.start];
    assert Listed(g, e) == [];
    assert forall b | 0 <= b < |d| && !InLog(g, b) :: e[b] == d[b];
  }

  /** From the header write until the log is cleared it stands for the new contents. */
  lemma AfterCommitPoint(g: Geometry, d: Disk, hs: Heads, list: seq<Word>, mem: Disk, k: nat)
    requires CanCommit(g, d, hs, list, mem) && |list| < k <= 2 * |list| + 1
    ensures var e := DiskDuring(g, d, hs, list, mem, k);
            GoodDisk(g, e) && Listed(g, e) == list && Logical(g, e) == Updated(g, d, list, mem)
  {
    var e := DiskDuring(g, d, hs, list, mem, k);
    assert e[g.start] == hs.full;
    assert Listed(g, e) == list;
    LogicalIsUpdated(g, d, e, list, mem);
  }

  /** A finished commit has installed everything and emptied the log. */
  lemma CommitDone(g: Geometry, d: Disk, hs: Heads, list: seq<Word>, mem: Disk)
    requires CanCommit(g, d, hs, list, mem)
    ensures var e := DiskDuring(g, d, hs, list, mem, 2 * |list| + 2);
            GoodDisk(g, e) && Listed(g, e) == [] && Home(g, e) == Logical(g, e) == Updated(g, d, list, mem)
  {
    var e := DiskDuring(g, d, hs, list, mem, 2 * |list| + 2);
    assert e[g.start] == hs.clear;
    assert Listed(g, e) == [];
    assert list[..|list|] == list;
  }

  /** What the disk stands for when a commit has issued `k` writes. */
  lemma CommitAtomic(g: Geometry, d: Disk, hs: Heads, list: seq<Word>, mem: Disk, k: nat)
    requires CanCommit(g, d, hs, list, mem) && k <= 2 * |list| + 2
    ensures var e := DiskDuring(g, d, hs, list, mem, k);
            && GoodDisk(g, e) && Logical(g, e) == (if k <= |list| then Home(g, d) else Updated(g, d, list, mem))
            && (Listed(g, e) == [] || Listed(g, e) == list)
            && forall b | 0 <= b < |d| && !InLog(g, b) && b !in list :: e[b] == d[b]
  {
    if k <= |list| {
      BeforeCommitPoint(g, d, hs, list, mem, k);
    } else if k <= 2 * |list| + 1 {
      AfterCommitPoint(g, d, hs, list, mem, k);
    } else {
      CommitDone(g, d, hs, list, mem);
    }
  }

  /** Crash atomicity: crash a commit after any `k` writes, crash any number of recoveries
      after that, and let one recovery finish. The home blocks are then all old or all new,
      decided by whether the header write happened, and the log is empty. At no crash point
      has a block outside the log region and the listed blocks changed. */
  lemma CrashAtomicity(g: Geometry, d: Disk, hs: Heads, list: seq<Word>, mem: Disk, k: nat, cuts: seq<nat>)
    requires CanCommit(g, d, hs, list, mem) && k <= 2 * |list| + 2
    ensures InRange(d, CommitWrites(g, hs, list, mem))
    ensures var e := After(d, CommitWrites(g, hs, list, mem), k);
            && GoodDisk(g, e)
            && var c := Crashed(g, e, cuts);
               var r := Recovered(g, c);
               && (forall b | 0 <= b < |d| && !InLog(g, b) && b !in list :: c[b] == d[b])
               && GoodDisk(g, r) && Listed(g, r) == []
               && Home(g, r) == if k <= |list| then Home(g, d) else Updated(g, d, list, mem)
  {
    CommitInRange(g, d, hs, list, mem);
    DiskDuringIsAfter(g, d, hs, list, mem, CommitWrites(g, hs, list, mem), k);
    CommitAtomic(g, d, hs, list, mem, k);
    FullRecovery(g, Crashed(g, DiskDuring(g, d, hs, list, mem, k), cuts));
  }
}
