/** The buffer cache of kernel/bio.c: a fixed set of buffers, recycled in least-recently-used
    order, in front of one disk. Every method is one critical section of the source, so any
    interleaving of processes is a sequence of these calls. */
module Bcache {
  import opened Basics
  import opened Words
  import opened LogDisk
  import opened Ring

  /** The only device: `virtio_disk_rw` ignores `dev`, and unused buffers carry device 0. */
  const ROOTDEV := 1

  /** `struct buf`; `holder` is the process that holds its sleep lock. */
  datatype Buf = Buf(valid: bool, dev: nat, blockno: nat, refcnt: nat, data: Block, holder: Option<nat>)

  predicate Names(b: Buf, bno: nat) {
    b.dev == ROOTDEV && b.blockno == bno
  }

  predicate Caches(b: Buf, bno: nat) {
    Names(b, bno) && b.valid
  }

  /** No block has two buffers. */
  predicate Unique(bufs: seq<Buf>) {
    forall a, b | 0 <= a < b < |bufs| && bufs[a].dev == ROOTDEV && bufs[b].dev == ROOTDEV ::
      bufs[a].blockno != bufs[b].blockno
  }

  /** The latest contents of a block: the cached copy if there is one, else the disk's. */
  ghost function ViewAt(bufs: seq<Buf>, disk: Disk, bno: nat): Block
    requires bno < |disk|
  {
    if exists b :: 0 <= b < |bufs| && Caches(bufs[b], bno)
    then var b :| 0 <= b < |bufs| && Caches(bufs[b], bno); bufs[b].data
    else disk[bno]
  }

  ghost function View(bufs: seq<Buf>, disk: Disk): (r: Disk)
    ensures |r| == |disk|
  {
    seq(|disk|, (bno: nat) requires bno < |disk| => ViewAt(bufs, disk, bno))
  }

  lemma ViewCached(bufs: seq<Buf>, disk: Disk, b: nat)
    requires Unique(bufs) && b < |bufs| && bufs[b].dev == ROOTDEV && bufs[b].valid && bufs[b].blockno < |disk|
    ensures View(bufs, disk)[bufs[b].blockno] == bufs[b].data
  {
    assert Caches(bufs[b], bufs[b].blockno);
  }

  /** What one buffer `x` and its disk block may become without changing any block's contents. */
  lemma ViewKept(bufs: seq<Buf>, disk: Disk, x: nat, nb: Buf, disk': Disk)
    requires Unique(bufs) && x < |bufs| && Unique(bufs[x := nb]) && |disk| == |disk'|
    requires forall bno | 0 <= bno < |disk| && !Names(bufs[x], bno) :: disk'[bno] == disk[bno]
    requires bufs[x].dev == ROOTDEV ==> bufs[x].blockno < |disk|
    requires nb.dev == ROOTDEV ==> nb.blockno < |disk|
    // the block the buffer held keeps its contents
    requires bufs[x].dev == ROOTDEV ==>
      var bno := bufs[x].blockno;
      (if Caches(nb, bno) then nb.data else disk'[bno]) == (if bufs[x].valid then bufs[x].data else disk[bno])
    // a block the buffer newly holds had no buffer, and is read from disk
    requires nb.dev == ROOTDEV && !Names(bufs[x], nb.blockno) ==>
      (nb.valid ==> nb.data == disk'[nb.blockno]) && forall a | 0 <= a < |bufs| :: !Names(bufs[a], nb.blockno)
    ensures View(bufs[x := nb], disk') == View(bufs, disk)
  {
    var bufs' := bufs[x := nb];
    forall bno | 0 <= bno < |disk|
      ensures ViewAt(bufs', disk', bno) == ViewAt(bufs, disk, bno)
    {
      if a :| 0 <= a < |bufs| && Names(bufs[a], bno) {
        if a != x {
          assert Names(bufs'[a], bno);
          assert forall c | 0 <= c < |bufs| && Names(bufs'[c], bno) :: c == a;
          assert !Names(bufs[x], bno);
        } else {
          assert forall c | 0 <= c < |bufs| && c != x :: bufs'[c] == bufs[c] && !Names(bufs'[c], bno);
          if Caches(nb, bno) {
            assert Caches(bufs'[x], bno);
          }
          if bufs[x].valid {
            assert Caches(bufs[x], bno);
          }
        }
      } else if Names(nb, bno) {
        assert forall c | 0 <= c < |bufs| && c != x :: bufs'[c] == bufs[c];
      } else {
        assert forall c | 0 <= c < |bufs| && c != x :: bufs'[c] == bufs[c];
      }
    }
  }

  /** The state of one buffer: its reference count is the number of processes using it plus its pins. */
  predicate BufOk(x: Buf, disk: Disk, users: set<nat>, pins: nat) {
    && x.refcnt == |users| + pins
    && (x.holder.Some? ==> x.holder.value in users)
    && (x.dev == 0 || x.dev == ROOTDEV)
    && (x.dev == 0 ==> !x.valid && x.refcnt == 0)
    && (x.dev == ROOTDEV ==> x.blockno < |disk|)
    && (0 < pins ==> x.valid)
  }

  predicate BufsOk(bufs: seq<Buf>, disk: Disk, users: seq<set<nat>>, pins: seq<nat>) {
    && |bufs| == |users| == |pins| == NBUF
    && Unique(bufs)
    && forall b | 0 <= b < NBUF :: BufOk(bufs[b], disk, users[b], pins[b])
  }

  /** The ring lists every buffer, most recently released first. */
  predicate RecencyOk(ring: seq<nat>, stamp: seq<nat>, clock: nat) {
    && |ring| == |stamp| == NBUF
    && (forall b | 0 <= b < NBUF :: stamp[b] < clock)
    && (forall i | 0 <= i < NBUF :: ring[i] < NBUF)
    && (forall i, j | 0 <= i < j < NBUF :: stamp[ring[i]] > stamp[ring[j]])
    && forall b | 0 <= b < NBUF :: b in ring
  }

  /** Changing buffer `x` alone, to contents that keep its own invariant and name no block
      another buffer names. */
  lemma OneBufChanged(bufs: seq<Buf>, disk: Disk, users: seq<set<nat>>, pins: seq<nat>, x: nat, nb: Buf, us: set<nat>,
                      ps: nat)
    requires BufsOk(bufs, disk, users, pins) && x < NBUF && BufOk(nb, disk, us, ps)
    requires nb.dev == ROOTDEV ==> forall a | 0 <= a < NBUF && a != x :: !Names(bufs[a], nb.blockno)
    ensures BufsOk(bufs[x := nb], disk, users[x := us], pins[x := ps])
  {
  }

  /** `bget`'s answer for `blockno`: the buffer that names it, else the least recently
      released unused one, else nothing. */
  ghost predicate BgetPicks(bufs: seq<Buf>, stamp: seq<nat>, blockno: nat, r: Option<nat>)
    requires |bufs| == |stamp| == NBUF
  {
    match r
    case None => forall b | 0 <= b < NBUF :: !Names(bufs[b], blockno) && bufs[b].refcnt > 0
    case Some(b) =>
      && b < NBUF
      && (Names(bufs[b], blockno)
          || ((forall a | 0 <= a < NBUF :: !Names(bufs[a], blockno))
              && bufs[b].refcnt == 0
              && forall a | 0 <= a < NBUF && bufs[a].refcnt == 0 :: stamp[b] <= stamp[a]))
  }

  /** The chosen buffer after `bget`. */
  function Claimed(x: Buf, dev: nat, blockno: nat): Buf {
    if Names(x, blockno) then x.(refcnt := x.refcnt + 1) else Buf(false, dev, blockno, 1, x.data, x.holder)
  }

  /** The latest contents once buffer `x` is taken for `blockno`: the block it held is as the disk has it. */
  function Reverted(mem: Disk, disk: Disk, x: Buf, blockno: nat): (r: Disk)
    requires |mem| == |disk|
    ensures |r| == |mem|
  {
    if x.dev == ROOTDEV && x.blockno != blockno && x.blockno < |mem| then mem[x.blockno := disk[x.blockno]] else mem
  }

  lemma ViewClaimed(bufs: seq<Buf>, disk: Disk, x: nat, blockno: nat)
    requires Unique(bufs) && x < |bufs| && blockno < |disk| && (bufs[x].dev == ROOTDEV ==> bufs[x].blockno < |disk|)
    requires Names(bufs[x], blockno) || forall a | 0 <= a < |bufs| :: !Names(bufs[a], blockno)
    ensures View(bufs[x := Claimed(bufs[x], ROOTDEV, blockno)], disk) ==
              Reverted(View(bufs, disk), disk, bufs[x], blockno)
  {
    var nb := Claimed(bufs[x], ROOTDEV, blockno);
    var bufs' := bufs[x := nb];
    if Names(bufs[x], blockno) {
      ViewKept(bufs, disk, x, nb, disk);
    } else {
      forall bno | 0 <= bno < |disk|
        ensures ViewAt(bufs', disk, bno) == if Names(bufs[x], bno) then disk[bno] else ViewAt(bufs, disk, bno)
      {
        assert forall c | 0 <= c < |bufs| && c != x :: bufs'[c] == bufs[c];
        if a :| 0 <= a < |bufs| && Caches(bufs[a], bno) && a != x {
          assert Caches(bufs'[a], bno);
        }
      }
    }
  }

  /** A buffer of the block is pinned or in use, so that it is not recycled. */
  ghost predicate InUse(bufs: seq<Buf>, users: seq<set<nat>>, pins: seq<nat>, bno: nat) {
    |bufs| == |users| == |pins| && exists b :: 0 <= b < |bufs| && Names(bufs[b], bno) && (users[b] != {} || pins[b] > 0)
  }

  /** The latest contents `mem` may have become `mem'` by recycling: blocks that no one was using are as the
      disk has them. */
  ghost predicate Faded(bufs: seq<Buf>, users: seq<set<nat>>, pins: seq<nat>, disk: Disk, mem: Disk, mem': Disk) {
    && |disk| == |mem| == |mem'|
    && forall bno: nat | bno < |disk| ::
         mem'[bno] == mem[bno] || (mem'[bno] == disk[bno] && !InUse(bufs, users, pins, bno))
  }

  lemma RevertedFades(bufs: seq<Buf>, disk: Disk, users: seq<set<nat>>, pins: seq<nat>, mem: Disk, x: nat, blockno: nat)
    requires BufsOk(bufs, disk, users, pins) && x < NBUF && |mem| == |disk|
    requires Names(bufs[x], blockno) || bufs[x].refcnt == 0
    ensures Faded(bufs, users, pins, disk, mem, Reverted(mem, disk, bufs[x], blockno))
  {
    assert BufOk(bufs[x], disk, users[x], pins[x]);
    if bufs[x].dev == ROOTDEV && bufs[x].blockno != blockno {
      forall b | 0 <= b < NBUF && Names(bufs[b], bufs[x].blockno)
        ensures users[b] == {} && pins[b] == 0
      {
        assert b == x;
      }
    }
  }

  const UNUSED := Buf(false, 0, 0, 0, ZERO_BLOCK, None)

  function Downto(n: nat): (r: seq<nat>)
    ensures |r| == n && forall i | 0 <= i < n :: r[i] == n - 1 - i
  {
    if n == 0 then [] else [n - 1] + Downto(n - 1)
  }

  lemma FreshCache(bufs: seq<Buf>, disk: Disk)
    requires bufs == seq(NBUF, _ => UNUSED)
    ensures BufsOk(bufs, disk, seq(NBUF, _ => {}), seq(NBUF, _ => 0))
    ensures RecencyOk(Downto(NBUF), seq(NBUF, i => i), NBUF)
    ensures View(bufs, disk) == disk
  {
    var ring := Downto(NBUF);
    forall b | 0 <= b < NBUF
      ensures b in ring
    {
      assert ring[NBUF - 1 - b] == b;
    }
  }

  class Cache {
    const buf: array<Buf>
    const next: array<nat>
    const prev: array<nat>
    var disk: Disk
    ghost var ring: seq<nat>         // the buffers from head.next to head.prev
    ghost var stamp: seq<nat>        // when each buffer was last released
    ghost var clock: nat
    var users: seq<set<nat>>         // the processes between bget and brelse, per buffer
    ghost var pins: seq<nat>
    ghost var trace: seq<Write>      // every disk write so far

    ghost predicate Valid()
      reads this, buf, next, prev
    {
      && buf.Length == NBUF && next.Length == NBUF + 1 && prev.Length == NBUF + 1 && next != prev
      && Linked(next[..], prev[..], ring)
      && RecencyOk(ring, stamp, clock)
      && BufsOk(buf[..], disk, users, pins)
    }

    /** The latest contents of every block. */
    ghost function Latest(): (r: Disk)
      reads this, buf
    {
      View(buf[..], disk)
    }

    ghost predicate Shaped()
      reads this
    {
      && buf.Length == NBUF && next.Length == NBUF + 1 && prev.Length == NBUF + 1 && next != prev
    }

    /** Every buffer starts unused and the ring starts in reverse index order. */
    constructor (disk: Disk)
      ensures Valid() && this.disk == disk && trace == []
      ensures Latest() == disk
      ensures fresh(buf) && fresh(next) && fresh(prev)
      ensures users == seq(NBUF, _ => {}) && pins == seq(NBUF, _ => 0)
    {
      buf := new Buf[NBUF](_ => UNUSED);
      next := new nat[NBUF + 1](_ => HEAD);
      prev := new nat[NBUF + 1](_ => HEAD);
      this.disk := disk;
      ring, trace := [], [];
      stamp, clock := seq(NBUF, i => i), NBUF;
      users, pins := seq(NBUF, _ => {}), seq(NBUF, _ => 0);
      new;
      var b: nat := 0;
      while b < NBUF
        invariant 0 <= b <= NBUF && ring == Downto(b)
        invariant Shaped() && Linked(next[..], prev[..], ring)
        modifies this`ring, next, prev
      {
        PutFirst(b);
        b := b + 1;
      }
      assert buf[..] == seq(NBUF, _ => UNUSED);
      FreshCache(buf[..], disk);
    }

    /** Link `b` in right after the head. */
    method PutFirst(b: nat)
      requires Shaped() && Linked(next[..], prev[..], ring) && b < NBUF && b !in ring
      modifies this`ring, next, prev
      ensures ring == [b] + old(ring) && Linked(next[..], prev[..], ring)
    {
      ghost var nx: seq<nat>, pv: seq<nat> := next[..], prev[..];
      InsertFront(nx, pv, ring, b);
      next[b] := next[HEAD];
      prev[b] := HEAD;
      prev[next[HEAD]] := b;
      next[HEAD] := b;
      assert next[..] == nx[b := nx[HEAD]][HEAD := b];
      assert prev[..] == pv[b := HEAD][nx[HEAD] := b];
      ring := [b] + ring;
    }
  
    /** The section of `bget` under `bcache.lock`; `None` is the panic "no buffers". */
    method Bget(dev: nat, blockno: nat, pid: nat) returns (r: Option<nat>)
      requires Valid() && dev == ROOTDEV && blockno < |disk|
      requires forall b | 0 <= b < NBUF && Names(buf[b], blockno) :: pid !in users[b]
      modifies this`users, buf
      ensures Valid()
      ensures BgetPicks(old(buf[..]), stamp, blockno, r)
      ensures r.None? ==> buf[..] == old(buf[..]) && users == old(users)
      ensures r.Some? ==> buf[..] == old(buf[..])[r.value := Claimed(old(buf[..])[r.value], dev, blockno)]
                          && users == old(users)[r.value := old(users)[r.value] + {pid}]
                          && Latest() == Reverted(old(Latest()), disk, old(buf[..])[r.value], blockno)
    {
      r := FindCached(dev, blockno);
      if r.None? {
        r := FindUnused();
      }
      if r.Some? {
        Claim(r.value, dev, blockno, pid);
      }
    }

    /** Is the block already cached? */
    method FindCached(dev: nat, blockno: nat) returns (r: Option<nat>)
      requires Valid() && dev == ROOTDEV
      ensures r.None? ==> forall b | 0 <= b < NBUF :: !Names(buf[b], blockno)
      ensures r.Some? ==> r.value < NBUF && Names(buf[r.value], blockno)
    {
      ghost var i := 1;
      assert At(ring, 0) == HEAD && At(ring, 1) == ring[0];
      var b := next[HEAD];
      while b != HEAD
        invariant 1 <= i <= NBUF + 1 && b == At(ring, i)
        invariant forall j | 1 <= j < i :: !Names(buf[At(ring, j)], blockno)
        decreases NBUF + 1 - i
      {
        if buf[b].dev == dev && buf[b].blockno == blockno {
          return Some(b);
        }
        assert At(ring, i + 1) == next[b];
        b := next[b];
        i := i + 1;
      }
      forall a | 0 <= a < NBUF
        ensures !Names(buf[a], blockno)
      {
        var j := OnRing(ring, stamp, clock, a);
      }
      return None;
    }

    /** The least recently released buffer that nobody uses or pins. */
    method FindUnused() returns (r: Option<nat>)
      requires Valid()
      ensures r.None? ==> forall b | 0 <= b < NBUF :: buf[b].refcnt > 0
      ensures r.Some? ==> r.value < NBUF && buf[r.value].refcnt == 0
                          && forall a | 0 <= a < NBUF && buf[a].refcnt == 0 :: stamp[r.value] <= stamp[a]
    {
      ghost var i := NBUF;
      assert At(ring, NBUF + 1) == HEAD && At(ring, NBUF) < HEAD;
      var b := prev[HEAD];
      while b != HEAD
        invariant 0 <= i <= NBUF && b == At(ring, i)
        invariant forall j | i < j <= NBUF :: buf[At(ring, j)].refcnt > 0
        decreases i
      {
        if buf[b].refcnt == 0 {
          LeastRecent(buf[..], ring, stamp, clock, i);
          return Some(b);
        }
        assert At(ring, i - 1) == prev[b];
        b := prev[b];
        i := i - 1;
      }
      forall a | 0 <= a < NBUF
        ensures buf[a].refcnt > 0
      {
        var j := OnRing(ring, stamp, clock, a);
      }
      return None;
    }

    /** `bget` takes buffer `b`, naming `blockno` or unused, for `pid`. */
    method Claim(b: nat, dev: nat, blockno: nat, pid: nat)
      requires Valid() && dev == ROOTDEV && blockno < |disk| && b < NBUF && pid !in users[b]
      requires Names(buf[b], blockno) || (buf[b].refcnt == 0 && forall a | 0 <= a < NBUF :: !Names(buf[a], blockno))
      modifies this`users, buf
      ensures Valid() && Latest() == Reverted(old(Latest()), disk, old(buf[..])[b], blockno)
      ensures buf[..] == old(buf[..])[b := Claimed(old(buf[..])[b], dev, blockno)]
      ensures users == old(users)[b := old(users)[b] + {pid}]
    {
      ghost var bufs := buf[..];
      if buf[b].dev == dev && buf[b].blockno == blockno {
        buf[b] := buf[b].(refcnt := buf[b].refcnt + 1);
      } else {
        buf[b] := Buf(false, dev, blockno, 1, buf[b].data, buf[b].holder);
      }
      OneBufChanged(bufs, disk, users, pins, b, buf[b], users[b] + {pid}, pins[b]);
      users := users[b := users[b] + {pid}];
      assert pins == pins[b := pins[b]];
      assert buf[..] == bufs[b := buf[b]];
      ViewClaimed(bufs, disk, b, blockno);
    }
  
    /** `bread`: a locked buffer with the latest contents of the block. The buffer's lock must be
        free; a process that finds it taken waits for another call of this method. */
    method Bread(dev: nat, blockno: nat, pid: nat) returns (r: Option<nat>)
      requires Valid() && dev == ROOTDEV && blockno < |disk|
      requires forall b | 0 <= b < NBUF && Names(buf[b], blockno) :: pid !in users[b] && buf[b].holder.None?
      modifies this`users, buf
      ensures Valid()
      ensures BgetPicks(old(buf[..]), stamp, blockno, r)
      ensures r.None? ==> buf[..] == old(buf[..]) && users == old(users)
      ensures r.Some? ==>
        var b := r.value;
        && Latest() == Reverted(old(Latest()), disk, old(buf[..])[b], blockno)
        && buf[..] ==
             old(buf[..])[b := Claimed(old(buf[..])[b], dev, blockno)
                               .(valid := true, data := Latest()[blockno], holder := Some(pid))]
        && users == old(users)[b := old(users)[b] + {pid}]
    {
      r := Bget(dev, blockno, pid);
      if r.Some? {
        var b := r.value;
        assert buf[b].holder.None?;
        Lock(b, pid);
        Fill(b, pid);
      }
    }

    /** `acquiresleep(&b->lock)` once the lock is free. */
    method Lock(b: nat, pid: nat)
      requires Valid() && b < NBUF && buf[b].holder.None? && pid in users[b]
      modifies buf
      ensures Valid() && Latest() == old(Latest())
      ensures buf[..] == old(buf[..])[b := old(buf[..])[b].(holder := Some(pid))]
    {
      ghost var bufs := buf[..];
      buf[b] := buf[b].(holder := Some(pid));
      OneBufChanged(bufs, disk, users, pins, b, buf[b], users[b], pins[b]);
      assert users == users[b := users[b]] && pins == pins[b := pins[b]];
      assert buf[..] == bufs[b := buf[b]];
      ViewKept(bufs, disk, b, buf[b], disk);
    }

    /** The read of `bread` when the buffer does not hold its block yet. */
    method Fill(b: nat, pid: nat)
      requires Valid() && b < NBUF && buf[b].dev == ROOTDEV && buf[b].holder == Some(pid)
      modifies buf
      ensures Valid() && Latest() == old(Latest())
      ensures buf[b].blockno < |disk|
      ensures buf[..] == old(buf[..])[b := old(buf[..])[b].(valid := true, data := Latest()[buf[b].blockno])]
    {
      ghost var bufs := buf[..];
      if !buf[b].valid {
        buf[b] := buf[b].(valid := true, data := disk[buf[b].blockno]);
      }
      OneBufChanged(bufs, disk, users, pins, b, buf[b], users[b], pins[b]);
      assert users == users[b := users[b]] && pins == pins[b := pins[b]];
      assert buf[..] == bufs[b := buf[b]];
      ViewKept(bufs, disk, b, buf[b], disk);
      ViewCached(buf[..], disk, b);
    }

    /** The lock holder changes the contents: the only step that changes what a block holds. */
    method Modify(b: nat, pid: nat, data: Block)
      requires Valid() && b < NBUF && buf[b].holder == Some(pid) && buf[b].valid
      modifies buf
      ensures Valid()
      ensures old(buf[b]).blockno < |disk| && Latest() == old(Latest())[old(buf[b]).blockno := data]
      ensures buf[..] == old(buf[..])[b := old(buf[..])[b].(data := data)]
    {
      ghost var bufs := buf[..];
      buf[b] := buf[b].(data := data);
      OneBufChanged(bufs, disk, users, pins, b, buf[b], users[b], pins[b]);
      assert users == users[b := users[b]] && pins == pins[b := pins[b]];
      assert buf[..] == bufs[b := buf[b]];
      ViewModified(bufs, disk, b, data);
    }

    /** `bwrite`: the disk catches up with the buffer. */
    method Bwrite(b: nat, pid: nat)
      requires Valid() && b < NBUF && buf[b].holder == Some(pid) && buf[b].valid
      modifies this`disk, this`trace
      ensures Valid() && Latest() == old(Latest())
      ensures buf[b].blockno < |old(disk)|
      ensures disk == Apply(old(disk), Write(buf[b].blockno, buf[b].data))
      ensures trace == old(trace) + [Write(buf[b].blockno, buf[b].data)]
    {
      ghost var before := disk;
      disk := disk[buf[b].blockno := buf[b].data];
      trace := trace + [Write(buf[b].blockno, buf[b].data)];
      assert buf[..] == buf[..][b := buf[b]];
      ViewKept(buf[..], before, b, buf[b], disk);
    }

    /** `brelse`: give up the buffer. Nobody looks whether a change to it has been logged or written. */
    method Brelse(b: nat, pid: nat)
      requires Valid() && b < NBUF && buf[b].holder == Some(pid)
      modifies this`users, this`ring, this`stamp, this`clock, buf, next, prev
      ensures Valid() && Latest() == old(Latest())
      ensures old(buf[b]).refcnt > 0
      ensures buf[..] == old(buf[..])[b := old(buf[..])[b].(refcnt := old(buf[..])[b].refcnt - 1, holder := None)]
      ensures users == old(users)[b := old(users)[b] - {pid}]
      ensures |ring| == |stamp| == |old(stamp)| == NBUF
      ensures buf[b].refcnt == 0 ==>
                ring[0] == b && forall a | 0 <= a < NBUF && a != b :: stamp[a] == old(stamp)[a] < stamp[b]
      ensures buf[b].refcnt > 0 ==> ring == old(ring) && stamp == old(stamp)
    {
      ghost var bufs := buf[..];
      buf[b] := buf[b].(refcnt := buf[b].refcnt - 1, holder := None);
      OneBufChanged(bufs, disk, users, pins, b, buf[b], users[b] - {pid}, pins[b]);
      users := users[b := users[b] - {pid}];
      assert pins == pins[b := pins[b]];
      assert buf[..] == bufs[b := buf[b]];
      ViewKept(bufs, disk, b, buf[b], disk);
      if buf[b].refcnt == 0 {
        MoveToFront(b);
      }
    }

    /** Relink `b` at the most recently used end. */
    method MoveToFront(b: nat)
      requires Shaped() && Linked(next[..], prev[..], ring) && RecencyOk(ring, stamp, clock) && b < NBUF
      modifies this`ring, this`stamp, this`clock, next, prev
      ensures Linked(next[..], prev[..], ring) && RecencyOk(ring, stamp, clock) && ring[0] == b
      ensures |old(stamp)| == NBUF && forall a | 0 <= a < NBUF && a != b :: stamp[a] == old(stamp)[a] < stamp[b]
    {
      ghost var nx: seq<nat>, pv: seq<nat> := next[..], prev[..];
      ghost var i := OnRing(ring, stamp, clock, b);
      assert ring[i - 1] == b;
      Unlink(nx, pv, ring, i - 1);
      prev[next[b]] := prev[b];
      next[prev[b]] := next[b];
      UnlinkedOnce(nx, pv, ring, i - 1);
      assert next[..] == nx[pv[b] := nx[b]];
      assert prev[..] == pv[nx[b] := pv[b]];
      ghost var was := ring;
      ring := Without(ring, i - 1);
      hide Linked;
      PutFirst(b);
      Refreshed(was, stamp, clock, i - 1);
      stamp, clock := stamp[b := clock], clock + 1;
    }

    /** `bpin`: keep a logged buffer from being recycled. */
    method Bpin(b: nat)
      requires Valid() && b < NBUF && buf[b].valid
      modifies this`pins, buf
      ensures Valid() && Latest() == old(Latest())
      ensures buf[..] == old(buf[..])[b := old(buf[..])[b].(refcnt := old(buf[..])[b].refcnt + 1)]
      ensures pins == old(pins)[b := old(pins)[b] + 1]
    {
      ghost var bufs := buf[..];
      buf[b] := buf[b].(refcnt := buf[b].refcnt + 1);
      OneBufChanged(bufs, disk, users, pins, b, buf[b], users[b], pins[b] + 1);
      pins := pins[b := pins[b] + 1];
      assert users == users[b := users[b]];
      assert buf[..] == bufs[b := buf[b]];
      ViewKept(bufs, disk, b, buf[b], disk);
    }

    /** `bunpin`: the buffer has been written to its home block. */
    method Bunpin(b: nat)
      requires Valid() && b < NBUF && pins[b] > 0
      modifies this`pins, buf
      ensures Valid() && Latest() == old(Latest())
      ensures old(buf[b]).refcnt > 0
      ensures buf[..] == old(buf[..])[b := old(buf[..])[b].(refcnt := old(buf[..])[b].refcnt - 1)]
      ensures pins == old(pins)[b := old(pins)[b] - 1]
    {
      ghost var bufs := buf[..];
      buf[b] := buf[b].(refcnt := buf[b].refcnt - 1);
      OneBufChanged(bufs, disk, users, pins, b, buf[b], users[b], pins[b] - 1);
      pins := pins[b := pins[b] - 1];
      assert users == users[b := users[b]];
      assert buf[..] == bufs[b := buf[b]];
      ViewKept(bufs, disk, b, buf[b], disk);
    }
  
    /** Copy block `src` over block `dst` through the cache and write `dst` to disk, as the loops of
        `write_log` (which reads `dst` first) and `install_trans` (which unpins `dst`) do. Other
        processes may be using buffers; the locks of the two blocks must be free. `false` is the panic
        "no buffers"; if the first of the two reads finds none, nothing has changed. `data` is what was
        copied. */
    method CopyBlock(src: nat, dst: nat, dstFirst: bool, unpin: bool, pid: nat) returns (ok: bool, ghost data: Block)
      requires Valid() && Outside(users, pid) && src < |disk| && dst < |disk| && src != dst
      requires Unlocked(buf[..], src) && Unlocked(buf[..], dst)
      requires unpin ==> exists b :: 0 <= b < NBUF && Names(buf[b], dst) && pins[b] > 0
      modifies this, buf, next, prev
      ensures Room(old(buf[..]), src, dst) ==> ok
      ensures Unavailable(old(buf[..]), if dstFirst then dst else src) ==>
                !ok && buf[..] == old(buf[..]) && users == old(users) && pins == old(pins)
      ensures !ok ==> Valid() && disk == old(disk) && trace == old(trace)
      ensures ok ==> Valid() && users == old(users)
      ensures ok ==>
                forall b | 0 <= b < NBUF :: pins[b] == old(pins)[b] - if unpin && Names(old(buf[b]), dst) then 1 else 0
      ensures ok ==> Kept(old(buf[..]), old(users), old(pins), buf[..], src, dst)
      ensures ok ==> Read(old(buf[..]), old(users), old(pins), old(disk), old(Latest()), src, data)
      ensures ok ==> disk == old(disk)[dst := data] && trace == old(trace) + [Write(dst, data)]
      ensures ok ==> Faded(old(buf[..]), old(users), old(pins), disk, old(Latest())[dst := data], Latest())
    {
      hide Linked, RecencyOk, Faded, Read, Taken, Released, Kept, Room, Unavailable, BufOk;
      data := Latest()[src];
      var s, d := BreadPair(src, dst, dstFirst, pid);
      if s.None? || d.None? {
        return false, data;
      }
      ghost var taken, mem := buf[..], Latest();
      data := mem[src];
      if unpin {
        PinnedTaken(old(buf[..]), old(users), pins, taken, s.value, d.value, src, dst);
      }
      CopyHeld(s.value, d.value, src, dst, unpin, pid);
      hide View, BufsOk;
      CopyKept(old(buf[..]), old(users), old(pins), taken, buf[..], s.value, d.value, src, dst);
      FadedWrite(old(buf[..]), old(users), old(pins), old(disk), old(Latest()), mem, dst, data);
      FadedAt(old(buf[..]), old(users), old(pins), old(disk), old(Latest()), mem, src);
      assert users == old(users);
      ok := true;
    }

    /** The copy, once both blocks are held. */
    method CopyHeld(s: nat, d: nat, src: nat, dst: nat, unpin: bool, pid: nat)
      requires Valid() && Holds(s, src, pid) && Holds(d, dst, pid) && s != d && pid in users[s] && pid in users[d]
      requires unpin ==> pins[d] > 0
      modifies this, buf, next, prev
      ensures Valid() && users == old(users)[s := old(users)[s] - {pid}][d := old(users)[d] - {pid}]
      ensures Released(old(buf[..]), buf[..], s, d)
      ensures pins == old(pins)[d := old(pins)[d] - if unpin then 1 else 0]
      ensures disk == old(disk)[dst := old(Latest())[src]] && Latest() == old(Latest())[dst := old(Latest())[src]]
              && trace == old(trace) + [Write(dst, old(Latest())[src])]
    {
      hide Linked, RecencyOk;
      ViewCached(buf[..], disk, s);
      StoreAndRelease(s, d, unpin, pid);
    }

    ghost predicate Holds(x: nat, bno: nat, pid: nat)
      reads this, buf
      requires buf.Length == NBUF == |pins|
    {
      x < NBUF && Caches(buf[x], bno) && buf[x].holder == Some(pid) && bno < |disk|
    }

    method BreadPair(src: nat, dst: nat, dstFirst: bool, pid: nat) returns (s: Option<nat>, d: Option<nat>)
      requires Valid() && Outside(users, pid) && src < |disk| && dst < |disk| && src != dst
      requires Unlocked(buf[..], src) && Unlocked(buf[..], dst)
      modifies this`users, buf
      ensures Valid() && Faded(old(buf[..]), old(users), pins, disk, old(Latest()), Latest())
      ensures s.Some? && d.Some? ==>
        && s.value != d.value && Holds(s.value, src, pid) && Holds(d.value, dst, pid)
        && users == old(users)[s.value := old(users)[s.value] + {pid}][d.value := old(users)[d.value] + {pid}]
        && Taken(old(buf[..]), old(users), pins, buf[..], s.value, d.value, src, dst)
      ensures Room(old(buf[..]), src, dst) ==> s.Some? && d.Some?
      ensures Unavailable(old(buf[..]), if dstFirst then dst else src) ==>
                (s.None? || d.None?) && buf[..] == old(buf[..]) && users == old(users)
    {
      hide Linked, RecencyOk, BufOk, View, Unique, Faded;
      if dstFirst {
        if Room(buf[..], src, dst) {
          RoomSym(buf[..], src, dst);
        }
        d, s := BreadTwo(dst, src, pid);
      } else {
        s, d := BreadTwo(src, dst, pid);
      }
    }

    method BreadTwo(first: nat, second: nat, pid: nat) returns (a: Option<nat>, b: Option<nat>)
      requires Valid() && Outside(users, pid) && first < |disk| && second < |disk| && first != second
      requires Unlocked(buf[..], first) && Unlocked(buf[..], second)
      modifies this`users, buf
      ensures Valid() && Faded(old(buf[..]), old(users), pins, disk, old(Latest()), Latest())
      ensures a.Some? && b.Some? ==>
        && a.value != b.value && Holds(a.value, first, pid) && Holds(b.value, second, pid)
        && users == old(users)[a.value := old(users)[a.value] + {pid}][b.value := old(users)[b.value] + {pid}]
        && Taken(old(buf[..]), old(users), pins, buf[..], a.value, b.value, first, second)
      ensures Room(old(buf[..]), first, second) ==> a.Some? && b.Some?
      ensures Unavailable(old(buf[..]), first) ==> a.None? && buf[..] == old(buf[..]) && users == old(users)
    {
      hide Linked, RecencyOk, Faded;
      ghost var bufs, us, mem := buf[..], users, Latest();
      a := BreadFree(first, pid);
      if a.None? {
        return a, None;
      }
      ghost var bufs', us', mem' := buf[..], users, Latest();
      assert Unlocked(buf[..], second);
      b := BreadFree(second, pid);
      FadedTwice(bufs, us, bufs', us', pins, disk, mem, mem', Latest(), a.value);
      if Room(bufs, first, second) {
        RoomForSecond(bufs, first, second, a.value, bufs'[a.value]);
      }
    }

    /** `bread` of a block whose buffer's lock, if it has a buffer, is free. */
    method BreadFree(bno: nat, pid: nat) returns (r: Option<nat>)
      requires Valid() && bno < |disk| && Unlocked(buf[..], bno)
      requires forall b | 0 <= b < NBUF && Names(buf[b], bno) :: pid !in users[b]
      modifies this`users, buf
      ensures Valid() && Faded(old(buf[..]), old(users), pins, disk, old(Latest()), Latest())
      ensures Unavailable(old(buf[..]), bno) <==> r.None?
      ensures r.None? ==> buf[..] == old(buf[..]) && users == old(users)
      ensures r.Some? ==>
        var b := r.value;
        && Holds(b, bno, pid)
        && buf[..] == old(buf[..])[b := buf[b]]
        && (Names(old(buf[b]), bno) || (!Named(old(buf[..]), bno) && old(buf[b]).refcnt == 0))
        && users == old(users)[b := old(users)[b] + {pid}]
    {
      ghost var bufs, us, mem := buf[..], users, Latest();
      r := Bread(ROOTDEV, bno, pid);
      assert r.Some? ==> Names(bufs[r.value], bno) || Spare(bufs, r.value);
      hide View;
      if r.Some? {
        RevertedFades(bufs, disk, us, pins, mem, r.value, bno);
      }
    }

    /** Store `data` in buffer `d` and write it out; `unpin` it then if asked. */
    method Store(d: nat, data: Block, unpin: bool, pid: nat)
      requires Valid() && d < NBUF && buf[d].holder == Some(pid) && buf[d].valid
      requires unpin ==> pins[d] > 0
      modifies this`disk, this`trace, this`pins, buf
      ensures Valid()
      ensures
        var dst := old(buf[d]).blockno;
        && dst < |old(disk)|
        && disk == old(disk)[dst := data] && Latest() == old(Latest())[dst := data]
        && trace == old(trace) + [Write(dst, data)]
      ensures pins == old(pins)[d := old(pins)[d] - if unpin then 1 else 0]
      ensures buf[..] == old(buf[..])[d := buf[d]]
      ensures buf[d].(refcnt := 0) == old(buf[d]).(refcnt := 0, data := data)
    {
      Modify(d, pid, data);
      Bwrite(d, pid);
      if unpin {
        Bunpin(d);
      }
    }

    method ReleaseTwo(s: nat, d: nat, pid: nat)
      requires Valid() && s < NBUF && d < NBUF && s != d
      requires buf[s].holder == buf[d].holder == Some(pid)
      modifies this`users, this`ring, this`stamp, this`clock, buf, next, prev
      ensures Valid() && Latest() == old(Latest())
      ensures users == old(users)[s := old(users)[s] - {pid}][d := old(users)[d] - {pid}]
      ensures Released(old(buf[..]), buf[..], s, d)
    {
      Brelse(s, pid);
      Brelse(d, pid);
    }

    /** Replace the contents of block `bno`, whose buffer `d` is in hand, on disk and in the cache. */
    method StoreOne(d: nat, bno: nat, data: Block, pid: nat)
      requires Valid() && Holds(d, bno, pid) && pid in users[d]
      modifies this, buf, next, prev
      ensures Valid() && users == old(users)[d := old(users)[d] - {pid}] && pins == old(pins)
      ensures disk == old(disk)[bno := data] && Latest() == old(Latest())[bno := data]
      ensures trace == old(trace) + [Write(bno, data)]
      ensures Released(old(buf[..]), buf[..], d, d)
    {
      Store(d, data, false, pid);
      Brelse(d, pid);
    }

    method StoreAndRelease(s: nat, d: nat, unpin: bool, pid: nat)
      requires Valid() && s < NBUF && d < NBUF && s != d
      requires buf[s].holder == buf[d].holder == Some(pid) && buf[s].valid && buf[d].valid
      requires unpin ==> pins[d] > 0
      modifies this, buf, next, prev
      ensures Valid() && users == old(users)[s := old(users)[s] - {pid}][d := old(users)[d] - {pid}]
      ensures
        var dst, data := old(buf[d]).blockno, old(buf[s]).data;
        && dst < |old(disk)|
        && disk == old(disk)[dst := data] && Latest() == old(Latest())[dst := data]
        && trace == old(trace) + [Write(dst, data)]
      ensures pins == old(pins)[d := old(pins)[d] - if unpin then 1 else 0]
      ensures Released(old(buf[..]), buf[..], s, d)
    {
      Store(d, buf[s].data, unpin, pid);
      ReleaseTwo(s, d, pid);
    }
  }

  /** What reading block `src` gives: its latest contents, or, if nobody was using it, perhaps the disk's. */
  ghost predicate Read(bufs: seq<Buf>, users: seq<set<nat>>, pins: seq<nat>, disk: Disk, mem: Disk, src: nat,
                       data: Block)
    requires src < |disk| == |mem|
  {
    data == mem[src] || (data == disk[src] && !InUse(bufs, users, pins, src))
  }

  lemma FadedAt(bufs: seq<Buf>, users: seq<set<nat>>, pins: seq<nat>, disk: Disk, mem: Disk, mem': Disk, src: nat)
    requires Faded(bufs, users, pins, disk, mem, mem') && src < |disk|
    ensures Read(bufs, users, pins, disk, mem, src, mem'[src])
  {
  }

  lemma FadedWrite(bufs: seq<Buf>, users: seq<set<nat>>, pins: seq<nat>, disk: Disk, mem: Disk, mem': Disk, dst: nat,
                   data: Block)
    requires Faded(bufs, users, pins, disk, mem, mem') && dst < |disk|
    ensures Faded(bufs, users, pins, disk[dst := data], mem[dst := data], mem'[dst := data])
  {
  }

  /** Recycling goes on after buffer `a` has been taken. */
  lemma FadedTwice(bufs: seq<Buf>, users: seq<set<nat>>, bufs': seq<Buf>, users': seq<set<nat>>, pins: seq<nat>,
                   disk: Disk, mem: Disk, mem1: Disk, mem2: Disk, a: nat)
    requires Faded(bufs, users, pins, disk, mem, mem1) && Faded(bufs', users', pins, disk, mem1, mem2)
    requires |bufs'| == |bufs| == |users| == |pins| == |users'| && a < |bufs| && bufs' == bufs[a := bufs'[a]]
    requires forall b | 0 <= b < |users| :: users[b] <= users'[b]
    requires (bufs'[a].dev == bufs[a].dev && bufs'[a].blockno == bufs[a].blockno) || (users[a] == {} && pins[a] == 0)
    ensures Faded(bufs, users, pins, disk, mem, mem2)
  {
    forall bno: nat | bno < |disk| && InUse(bufs, users, pins, bno)
      ensures InUse(bufs', users', pins, bno)
    {
      var b :| 0 <= b < |bufs| && Names(bufs[b], bno) && (users[b] != {} || pins[b] > 0);
      assert Names(bufs'[b], bno) && (users'[b] != {} || pins[b] > 0);
    }
  }

  /** Process `pid` is using no buffer. */
  predicate Outside(users: seq<set<nat>>, pid: nat) {
    forall b | 0 <= b < |users| :: pid !in users[b]
  }

  /** If the block has a buffer, its sleep lock is free. */
  predicate Unlocked(bufs: seq<Buf>, bno: nat) {
    forall b | 0 <= b < |bufs| && Names(bufs[b], bno) :: bufs[b].holder.None?
  }

  /** Buffers `s` and `d` have been given up; the others are untouched, and all name the same blocks. */
  predicate Released(bufs: seq<Buf>, bufs': seq<Buf>, s: nat, d: nat) {
    && |bufs| == |bufs'|
    && (forall b | 0 <= b < |bufs| :: bufs'[b].dev == bufs[b].dev && bufs'[b].blockno == bufs[b].blockno)
    && (forall b | 0 <= b < |bufs| && b != s && b != d :: bufs'[b] == bufs[b])
    && (s < |bufs| ==> bufs'[s].holder.None?) && (d < |bufs| ==> bufs'[d].holder.None?)
  }

  /** Buffers `s` and `d` have been taken for blocks `src` and `dst`: each named its block already or
      was unused; the others are untouched. */
  ghost predicate Taken(bufs: seq<Buf>, users: seq<set<nat>>, pins: seq<nat>, bufs': seq<Buf>, s: nat, d: nat,
                        src: nat, dst: nat) {
    && s < |bufs| && d < |bufs| && |bufs'| == |bufs| == |users| == |pins|
    && (forall b | 0 <= b < |bufs| && b != s && b != d :: bufs'[b] == bufs[b])
    && (Names(bufs[s], src) || (users[s] == {} && pins[s] == 0))
    && (Names(bufs[d], dst) || (users[d] == {} && pins[d] == 0))
  }

  /** What a copy leaves: a buffer in use or pinned names its block and is unlocked or locked as before,
      and one that is not of the two blocks is untouched. */
  ghost predicate Kept(bufs: seq<Buf>, users: seq<set<nat>>, pins: seq<nat>, bufs': seq<Buf>, src: nat, dst: nat) {
    && |bufs'| == |bufs| == |users| == |pins|
    && forall b | 0 <= b < |bufs| && (users[b] != {} || pins[b] > 0) ::
         && bufs'[b].dev == bufs[b].dev && bufs'[b].blockno == bufs[b].blockno && bufs'[b].holder == bufs[b].holder
         && (Names(bufs[b], src) || Names(bufs[b], dst) || bufs'[b] == bufs[b])
  }

  lemma CopyKept(bufs: seq<Buf>, users: seq<set<nat>>, pins: seq<nat>, taken: seq<Buf>, bufs': seq<Buf>, s: nat,
                 d: nat, src: nat, dst: nat)
    requires Taken(bufs, users, pins, taken, s, d, src, dst) && Released(taken, bufs', s, d)
    requires Names(taken[s], src) && Names(taken[d], dst) && Unlocked(bufs, src) && Unlocked(bufs, dst)
    ensures Kept(bufs, users, pins, bufs', src, dst)
  {
  }

  /** The buffer pinned to a block is the one taken for it. */
  lemma PinnedTaken(bufs: seq<Buf>, users: seq<set<nat>>, pins: seq<nat>, taken: seq<Buf>, s: nat, d: nat, src: nat,
                    dst: nat)
    requires Taken(bufs, users, pins, taken, s, d, src, dst) && Unique(taken) && Unique(bufs)
    requires Names(taken[s], src) && Names(taken[d], dst) && src != dst
    requires exists b :: 0 <= b < |bufs| && Names(bufs[b], dst) && pins[b] > 0
    ensures pins[d] > 0 && forall b | 0 <= b < |bufs| :: Names(bufs[b], dst) <==> b == d
  {
  }

  /** Enough buffers to hold blocks `x` and `y` at once: two unused ones, or one unused and one that
      names `x` or `y`. */
  ghost predicate Room(bufs: seq<Buf>, x: nat, y: nat) {
    exists a: nat, b: nat :: a != b && Spare(bufs, a) && Usable(bufs, b, x, y)
  }

  predicate Spare(bufs: seq<Buf>, a: nat) {
    a < |bufs| && bufs[a].refcnt == 0
  }

  predicate Usable(bufs: seq<Buf>, b: nat, x: nat, y: nat) {
    b < |bufs| && (bufs[b].refcnt == 0 || Names(bufs[b], x) || Names(bufs[b], y))
  }

  lemma RoomSym(bufs: seq<Buf>, x: nat, y: nat)
    requires Room(bufs, x, y)
    ensures Room(bufs, y, x)
  {
    var p: nat, q: nat :| p != q && Spare(bufs, p) && Usable(bufs, q, x, y);
    assert Spare(bufs, p) && Usable(bufs, q, y, x);
  }

  ghost predicate Named(bufs: seq<Buf>, bno: nat) {
    exists b :: 0 <= b < |bufs| && Names(bufs[b], bno)
  }

  /** No buffer holds `bno` and none can be recycled for it. */
  ghost predicate Unavailable(bufs: seq<Buf>, bno: nat) {
    !Named(bufs, bno) && forall b :: !Spare(bufs, b)
  }

  /** Claiming a buffer for `x` leaves room for `y`. */
  lemma RoomForSecond(bufs: seq<Buf>, x: nat, y: nat, a: nat, nb: Buf)
    requires Unique(bufs) && Room(bufs, x, y)
    requires a < |bufs| && (Names(bufs[a], x) || !Named(bufs, x)) && Names(nb, x)
    ensures !Unavailable(bufs[a := nb], y)
  {
    var p: nat, q: nat :| p != q && Spare(bufs, p) && Usable(bufs, q, x, y);
    var bufs' := bufs[a := nb];
    if a == p {
      assert bufs'[q] == bufs[q];
      assert bufs'[q].refcnt == 0 ==> Spare(bufs', q);
      assert Names(bufs[q], x) ==> Named(bufs, x);
    } else {
      assert Spare(bufs', p);
    }
  }

  predicate NobodyUses(users: seq<set<nat>>) {
    forall b | 0 <= b < |users| :: users[b] == {}
  }

  /** Changing the data of a cached block changes that block's contents and no other's. */
  lemma ViewModified(bufs: seq<Buf>, disk: Disk, x: nat, data: Block)
    requires Unique(bufs) && x < |bufs| && bufs[x].dev == ROOTDEV && bufs[x].valid && bufs[x].blockno < |disk|
    ensures View(bufs[x := bufs[x].(data := data)], disk) == View(bufs, disk)[bufs[x].blockno := data]
  {
    var bufs' := bufs[x := bufs[x].(data := data)];
    forall bno | 0 <= bno < |disk|
      ensures ViewAt(bufs', disk, bno) == if bno == bufs[x].blockno then data else ViewAt(bufs, disk, bno)
    {
      if bno == bufs[x].blockno {
        assert Caches(bufs'[x], bno);
      } else if b :| 0 <= b < |bufs| && Caches(bufs[b], bno) {
        assert Caches(bufs'[b], bno);
      }
    }
  }

  /** A change that was neither logged nor written is gone once the buffer is recycled for another block. */
  lemma UnloggedIsLost(bufs: seq<Buf>, disk: Disk, x: nat, blockno: nat)
    requires Unique(bufs) && x < |bufs| && bufs[x].dev == ROOTDEV && bufs[x].valid && bufs[x].blockno < |disk|
    requires bufs[x].data != disk[bufs[x].blockno] && bufs[x].blockno != blockno
    ensures var b := bufs[x].blockno;
            View(bufs, disk)[b] == bufs[x].data != View(bufs[x := Claimed(bufs[x], ROOTDEV, blockno)], disk)[b]
  {
    ViewCached(bufs, disk, x);
    var bufs' := bufs[x := Claimed(bufs[x], ROOTDEV, blockno)];
    assert forall c | 0 <= c < |bufs| && c != x :: bufs'[c] == bufs[c] && !Names(bufs[c], bufs[x].blockno);
  }

  /** A buffer that is off the ring once unlinked. */
  lemma UnlinkedOnce(nx: seq<nat>, pv: seq<nat>, ring: seq<nat>, p: nat)
    requires Linked(nx, pv, ring) && p < |ring|
    ensures ring[p] !in Without(ring, p)
    ensures nx[ring[p]] != ring[p] && pv[ring[p]] != ring[p]
  {
    assert At(ring, p + 1) == ring[p] && pv[ring[p]] == At(ring, p) && nx[ring[p]] == At(ring, p + 2);
  }

  /** Moving the buffer at position `p` to the front with a fresh stamp keeps the order. */
  lemma Refreshed(ring: seq<nat>, stamp: seq<nat>, clock: nat, p: nat)
    requires RecencyOk(ring, stamp, clock) && p < NBUF
    ensures RecencyOk([ring[p]] + Without(ring, p), stamp[ring[p] := clock], clock + 1)
  {
    var b := ring[p];
    var r' := [b] + Without(ring, p);
    forall a | 0 <= a < NBUF
      ensures a in r'
    {
      assert a in ring;
    }
  }

  lemma OnRing(ring: seq<nat>, stamp: seq<nat>, clock: nat, a: nat) returns (i: nat)
    requires RecencyOk(ring, stamp, clock) && a < NBUF
    ensures 1 <= i <= NBUF && At(ring, i) == a
  {
    assert a in ring;
    var j :| 0 <= j < |ring| && ring[j] == a;
    i := j + 1;
  }

  /** Scanning back from the head, the first unused buffer is the least recently released. */
  lemma LeastRecent(bufs: seq<Buf>, ring: seq<nat>, stamp: seq<nat>, clock: nat, i: nat)
    requires |bufs| == NBUF && RecencyOk(ring, stamp, clock) && 1 <= i <= NBUF
    requires forall j | i < j <= NBUF :: bufs[At(ring, j)].refcnt > 0
    ensures forall a | 0 <= a < NBUF && bufs[a].refcnt == 0 :: stamp[At(ring, i)] <= stamp[a]
  {
    forall a | 0 <= a < NBUF && bufs[a].refcnt == 0
      ensures stamp[At(ring, i)] <= stamp[a]
    {
      var j := OnRing(ring, stamp, clock, a);
    }
  }
}
