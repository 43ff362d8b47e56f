/** The log of kernel/log.c running over the buffer cache: the critical sections of `begin_op`,
    `end_op` and `log_write`, and `commit` and `recover_from_log` block by block. The disk writes they
    issue are the programs that the crash theorems are about. */
module Log {
  import opened Basics
  import opened Words
  import opened LogDisk
  import opened Ring
  import opened Bcache

  /** Exactly the listed blocks are pinned, once each, and every one of them is cached. */
  ghost predicate PinsOk(bufs: seq<Buf>, pins: seq<nat>, list: seq<Word>) {
    && |bufs| == |pins| == NBUF
    && (forall b | 0 <= b < NBUF :: pins[b] == if bufs[b].dev == ROOTDEV && bufs[b].blockno in list then 1 else 0)
    && forall i | 0 <= i < |list| :: Named(bufs, list[i])
  }

  /** `n` distinct numbers below `n` are all of them. */
  lemma Covers(s: seq<nat>, n: nat, b: nat)
    requires Distinct(s) && n <= |s| && b < n && forall i | 0 <= i < |s| :: s[i] < n
    ensures b in s
  {
    if b !in s {
      var all: seq<nat> := seq(n, (i: nat) => i);
      var bs: seq<nat> := [b] + s;
      forall i | 0 <= i < |bs|
        ensures bs[i] in all
      {
        assert all[bs[i]] == bs[i];
      }
      Pigeonhole(bs, all);
    }
  }

  /** Buffer `b` is neither pinned nor in use. */
  predicate Idle(users: seq<set<nat>>, pins: seq<nat>, b: nat) {
    b < |users| && b < |pins| && users[b] == {} && pins[b] == 0
  }

  /** Some buffer is neither pinned nor in use, so that `bget` can recycle it. */
  predicate SomeIdle(users: seq<set<nat>>, pins: seq<nat>) {
    exists b: nat | b < NBUF :: Idle(users, pins, b)
  }

  /** With nobody using a buffer, one is idle exactly when fewer blocks are listed than there are
      buffers. */
  lemma IdleUnused(bufs: seq<Buf>, users: seq<set<nat>>, pins: seq<nat>, list: seq<Word>)
    requires PinsOk(bufs, pins, list) && Unique(bufs) && |users| == NBUF && NobodyUses(users) && NoRepeats(list)
    ensures SomeIdle(users, pins) <==> |list| < NBUF
  {
    if |list| < NBUF {
      var b := Unpinned(bufs, pins, list);
      assert Idle(users, pins, b);
    } else {
      forall b: nat | b < NBUF
        ensures !Idle(users, pins, b)
      {
        AllPinned(bufs, pins, list, b);
      }
    }
  }

  /** With fewer listed blocks than buffers, some buffer is not pinned. */
  lemma Unpinned(bufs: seq<Buf>, pins: seq<nat>, list: seq<Word>) returns (b: nat)
    requires PinsOk(bufs, pins, list) && Unique(bufs) && |list| < NBUF
    ensures b < NBUF && pins[b] == 0
  {
    if x: nat :| x < NBUF && pins[x] == 0 {
      b := x;
    } else {
      var nos: seq<nat> := seq(NBUF, (b: nat) requires b < NBUF => bufs[b].blockno);
      var l: seq<nat> := list;
      forall b | 0 <= b < NBUF
        ensures nos[b] in l && bufs[b].dev == ROOTDEV
      {
        assert pins[b] != 0;
      }
      Pigeonhole(nos, l);
    }
  }

  ghost function WhichBuf(bufs: seq<Buf>, x: nat): (b: nat)
    requires Named(bufs, x)
    ensures b < |bufs| && Names(bufs[b], x)
  {
    var b :| 0 <= b < |bufs| && Names(bufs[b], x); b
  }

  /** As many listed blocks as buffers pin every buffer. */
  lemma AllPinned(bufs: seq<Buf>, pins: seq<nat>, list: seq<Word>, b: nat)
    requires PinsOk(bufs, pins, list) && NBUF <= |list| && NoRepeats(list) && b < NBUF
    ensures pins[b] == 1
  {
    var which: seq<nat> := seq(|list|, (i: nat) requires i < |list| => WhichBuf(bufs, list[i]));
    assert forall i | 0 <= i < |list| :: Names(bufs[which[i]], list[i]) && which[i] < NBUF;
    Covers(which, NBUF, b);
  }

  /** With one buffer fewer listed than there are, a reader of another block takes the last one. */
  lemma ReaderTakesLast(bufs: seq<Buf>, us: seq<set<nat>>, pins: seq<nat>, list: seq<Word>, c: nat)
    requires PinsOk(bufs, pins, list) && |list| == NBUF - 1 && NoRepeats(list) && |us| == NBUF
    requires c < NBUF && pins[c] == 0 && us[c] != {}
    ensures !SomeIdle(us, pins)
  {
    var which: seq<nat> := seq(|list|, (i: nat) requires i < |list| => WhichBuf(bufs, list[i])) + [c];
    assert forall i | 0 <= i < |list| :: Names(bufs[which[i]], list[i]) && which[i] < NBUF && pins[which[i]] == 1;
    forall b: nat | b < NBUF
      ensures !Idle(us, pins, b)
    {
      Covers(which, NBUF, b);
    }
  }

  /** The committing process uses no buffer, and nobody else uses a log block. */
  predicate Undisturbed(x: Buf, us: set<nat>, g: Geometry, pid: nat) {
    pid !in us && (x.dev == ROOTDEV && InLog(g, x.blockno) ==> us == {})
  }

  ghost predicate AllUndisturbed(bufs: seq<Buf>, us: seq<set<nat>>, g: Geometry, pid: nat) {
    |bufs| == |us| == NBUF && forall b | 0 <= b < NBUF :: Undisturbed(bufs[b], us[b], g, pid)
  }

  lemma LogUnlocked(bufs: seq<Buf>, disk: Disk, us: seq<set<nat>>, pins: seq<nat>, g: Geometry, pid: nat, y: nat)
    requires BufsOk(bufs, disk, us, pins) && AllUndisturbed(bufs, us, g, pid) && InLog(g, y)
    ensures Unlocked(bufs, y) && Outside(us, pid)
  {
    forall b | 0 <= b < NBUF
      ensures (Names(bufs[b], y) ==> bufs[b].holder.None?) && pid !in us[b]
    {
      assert Undisturbed(bufs[b], us[b], g, pid) && BufOk(bufs[b], disk, us[b], pins[b]);
    }
  }

  /** A log block can be had exactly when some buffer is idle. */
  lemma WhenAvailable(bufs: seq<Buf>, disk: Disk, us: seq<set<nat>>, pins: seq<nat>, g: Geometry, list: seq<Word>,
                      pid: nat, y: nat)
    requires BufsOk(bufs, disk, us, pins) && PinsOk(bufs, pins, list) && AllUndisturbed(bufs, us, g, pid)
    requires y !in list && InLog(g, y)
    ensures SomeIdle(us, pins) <==> !Unavailable(bufs, y)
    ensures SomeIdle(us, pins) ==> exists a: nat :: Spare(bufs, a) && pins[a] == 0
  {
    if a: nat :| a < NBUF && Idle(us, pins, a) {
      assert BufOk(bufs[a], disk, us[a], pins[a]);
      assert Spare(bufs, a);
    } else {
      forall c: nat | c < NBUF
        ensures !Names(bufs[c], y) && !Spare(bufs, c)
      {
        assert !Idle(us, pins, c);
        assert Undisturbed(bufs[c], us[c], g, pid) && BufOk(bufs[c], disk, us[c], pins[c]);
      }
    }
  }

  /** And then there is room to copy between it and a listed block. */
  lemma WhenRoom(bufs: seq<Buf>, disk: Disk, us: seq<set<nat>>, pins: seq<nat>, g: Geometry, list: seq<Word>, pid: nat,
                 x: nat, y: nat)
    requires BufsOk(bufs, disk, us, pins) && PinsOk(bufs, pins, list) && AllUndisturbed(bufs, us, g, pid)
    requires x in list && y !in list && InLog(g, y)
    ensures SomeIdle(us, pins) ==> Room(bufs, x, y) && Room(bufs, y, x)
    ensures !SomeIdle(us, pins) ==> Unavailable(bufs, y)
  {
    WhenAvailable(bufs, disk, us, pins, g, list, pid, y);
    assert Named(bufs, x);
    var b := WhichBuf(bufs, x);
    if SomeIdle(us, pins) {
      var a: nat :| Spare(bufs, a) && pins[a] == 0;
      assert Spare(bufs, a) && Usable(bufs, b, x, y);
      RoomSym(bufs, x, y);
    }
  }

  lemma PinnedName(bufs: seq<Buf>, pins: seq<nat>, list: seq<Word>, x: nat)
    requires PinsOk(bufs, pins, list) && x in list
    ensures exists b :: 0 <= b < NBUF && Names(bufs[b], x) && pins[b] > 0
  {
    assert Named(bufs, x);
    var b := WhichBuf(bufs, x);
    assert Names(bufs[b], x) && pins[b] > 0;
  }

  /** Buffers that were not pinned may be recycled for blocks outside the list. */
  lemma PinsKept(bufs: seq<Buf>, bufs': seq<Buf>, pins: seq<nat>, list: seq<Word>)
    requires PinsOk(bufs, pins, list) && Unique(bufs') && |bufs'| == NBUF
    requires forall b | 0 <= b < NBUF && pins[b] > 0 ::
               bufs'[b].dev == bufs[b].dev && bufs'[b].blockno == bufs[b].blockno
    ensures PinsOk(bufs', pins, list)
  {
    forall i | 0 <= i < |list|
      ensures exists b :: 0 <= b < NBUF && Names(bufs'[b], list[i]) && pins[b] == 1
    {
      var b := WhichBuf(bufs, list[i]);
      assert pins[b] == 1;
    }
  }

  /** Unpinning the first listed block. */
  lemma PinsDropped(bufs: seq<Buf>, bufs': seq<Buf>, pins: seq<nat>, pins': seq<nat>, list: seq<Word>)
    requires 0 < |list| && list[0] !in list[1..] && PinsOk(bufs, pins, list) && Unique(bufs')
    requires |bufs'| == |pins'| == NBUF
    requires forall b | 0 <= b < NBUF && pins[b] > 0 ::
               bufs'[b].dev == bufs[b].dev && bufs'[b].blockno == bufs[b].blockno
    requires forall b | 0 <= b < NBUF :: pins'[b] == pins[b] - if Names(bufs[b], list[0]) then 1 else 0
    ensures PinsOk(bufs', pins', list[1..])
  {
    forall i | 0 <= i < |list|
      ensures exists b :: 0 <= b < NBUF && Names(bufs'[b], list[i]) && pins[b] == 1
    {
      var b := WhichBuf(bufs, list[i]);
      assert pins[b] == 1;
    }
  }

  /** What a copy leaves undisturbed. */
  lemma UndisturbedKept(bufs: seq<Buf>, us: seq<set<nat>>, pins: seq<nat>, bufs': seq<Buf>, disk': Disk,
                        pins': seq<nat>, g: Geometry, pid: nat, src: nat, dst: nat)
    requires AllUndisturbed(bufs, us, g, pid) && Kept(bufs, us, pins, bufs', src, dst)
    requires BufsOk(bufs', disk', us, pins')
    ensures AllUndisturbed(bufs', us, g, pid)
  {
    forall b | 0 <= b < NBUF
      ensures Undisturbed(bufs'[b], us[b], g, pid)
    {
      assert Undisturbed(bufs[b], us[b], g, pid) && BufOk(bufs'[b], disk', us[b], pins'[b]);
    }
  }

  /** Exactly the blocks of `list` are pinned, and nobody's use of buffers disturbs the commit of process
      `pid`. */
  ghost predicate Ours(cache: Cache, g: Geometry, list: seq<Word>, pid: nat)
    reads cache, cache.buf
  {
    PinsOk(cache.buf[..], cache.pins, list) && AllUndisturbed(cache.buf[..], cache.users, g, pid)
  }

  // ----- what other processes do meanwhile -----

  /** A step of another process: `bget` for block `bno`; `acquiresleep` of buffer `b`, with the read that
      `bread` does then; `brelse`. */
  datatype Visit = Ask(bno: nat, q: nat) | Enter(b: nat, q: nat) | Leave(b: nat, q: nat)

  /** What others do before each round of a commit. */
  type Schedule = nat -> seq<Visit>

  /** The latest contents `mem` have become `mem'`: blocks outside `list` may be as the disk has them. */
  predicate Fades(disk: Disk, mem: Disk, mem': Disk, list: seq<Word>) {
    && |disk| == |mem| == |mem'|
    && forall b: nat | b < |disk| :: mem'[b] == mem[b] || (mem'[b] == disk[b] && b !in list)
  }

  lemma FadesTrans(disk: Disk, m0: Disk, m1: Disk, m2: Disk, list: seq<Word>)
    requires Fades(disk, m0, m1, list) && Fades(disk, m1, m2, list)
    ensures Fades(disk, m0, m2, list)
  {
  }

  /** A listed block is pinned, so it is not recycled. */
  lemma FadedListed(bufs: seq<Buf>, users: seq<set<nat>>, pins: seq<nat>, disk: Disk, mem: Disk, mem': Disk,
                    list: seq<Word>)
    requires Faded(bufs, users, pins, disk, mem, mem') && PinsOk(bufs, pins, list) && |users| == NBUF
    ensures Fades(disk, mem, mem', list)
  {
    forall b: nat | b < |disk| && b in list
      ensures InUse(bufs, users, pins, b)
    {
      PinnedName(bufs, pins, list, b);
    }
  }

  /** A visit that cannot be made now is not made: the visitor waits, or the kernel stops for want of a
      buffer. */
  method Admit(cache: Cache, g: Geometry, v: Visit, ghost list: seq<Word>, pid: nat)
    requires cache.Valid() && Ours(cache, g, list, pid)
    modifies cache`users, cache`ring, cache`stamp, cache`clock, cache.buf, cache.next, cache.prev
    ensures cache.Valid() && Ours(cache, g, list, pid) && Fades(cache.disk, old(cache.Latest()), cache.Latest(), list)
  {
    hide Ring.Linked, RecencyOk, PinsOk, AllUndisturbed, Fades, View;
    ghost var bufs, us := cache.buf[..], cache.users;
    NoFade(cache.disk, cache.Latest(), list);
    match v
    case Ask(bno, q) =>
      if q != pid && bno < |cache.disk| && !InLog(g, bno) && !Uses(cache.buf[..], cache.users, bno, q) {
        var r := cache.Bget(ROOTDEV, bno, q);
        if r.Some? {
          Asked(bufs, cache.disk, us, cache.pins, old(cache.Latest()), g, list, r.value, bno, q, pid);
        }
      }
    case Enter(b, q) =>
      if b < NBUF && cache.buf[b].holder.None? && q in cache.users[b] {
        assert BufOk(bufs[b], cache.disk, us[b], cache.pins[b]);
        cache.Lock(b, q);
        cache.Fill(b, q);
        SameNames(bufs, cache.buf[..], us, cache.users, cache.pins, g, list, pid);
      }
    case Leave(b, q) =>
      if b < NBUF && cache.buf[b].holder == Some(q) {
        cache.Brelse(b, q);
        SameNames(bufs, cache.buf[..], us, cache.users, cache.pins, g, list, pid);
      }
  }

  lemma NoFade(disk: Disk, mem: Disk, list: seq<Word>)
    requires |mem| == |disk|
    ensures Fades(disk, mem, mem, list)
  {
  }

  /** Process `q` has a reference to the buffer of the block. */
  predicate Uses(bufs: seq<Buf>, users: seq<set<nat>>, bno: nat, q: nat) {
    |bufs| == |users| && exists b :: 0 <= b < |bufs| && Names(bufs[b], bno) && q in users[b]
  }

  lemma Asked(bufs: seq<Buf>, disk: Disk, us: seq<set<nat>>, pins: seq<nat>, mem: Disk, g: Geometry, list: seq<Word>,
              b: nat, bno: nat, q: nat, pid: nat)
    requires BufsOk(bufs, disk, us, pins) && PinsOk(bufs, pins, list) && AllUndisturbed(bufs, us, g, pid)
    requires b < NBUF && q != pid && !InLog(g, bno) && |mem| == |disk|
    requires Names(bufs[b], bno) || (bufs[b].refcnt == 0 && forall a | 0 <= a < NBUF :: !Names(bufs[a], bno))
    ensures var bufs' := bufs[b := Claimed(bufs[b], ROOTDEV, bno)];
            PinsOk(bufs', pins, list) && AllUndisturbed(bufs', us[b := us[b] + {q}], g, pid)
    ensures Fades(disk, mem, Reverted(mem, disk, bufs[b], bno), list)
  {
    var bufs' := bufs[b := Claimed(bufs[b], ROOTDEV, bno)];
    assert BufOk(bufs[b], disk, us[b], pins[b]);
    RevertedFades(bufs, disk, us, pins, mem, b, bno);
    FadedListed(bufs, us, pins, disk, mem, Reverted(mem, disk, bufs[b], bno), list);
    hide Fades, Faded;
    PinsKept(bufs, bufs', pins, list);
    forall c | 0 <= c < NBUF
      ensures Undisturbed(bufs'[c], us[b := us[b] + {q}][c], g, pid)
    {
      assert Undisturbed(bufs[c], us[c], g, pid);
    }
  }

  /** The buffers name the same blocks and have no new users. */
  lemma SameNames(bufs: seq<Buf>, bufs': seq<Buf>, us: seq<set<nat>>, us': seq<set<nat>>, pins: seq<nat>, g: Geometry,
                  list: seq<Word>, pid: nat)
    requires PinsOk(bufs, pins, list) && AllUndisturbed(bufs, us, g, pid) && |bufs'| == |us'| == NBUF
    requires forall b | 0 <= b < NBUF :: bufs'[b].dev == bufs[b].dev && bufs'[b].blockno == bufs[b].blockno
    requires forall b | 0 <= b < NBUF :: us'[b] <= us[b]
    ensures PinsOk(bufs', pins, list) && AllUndisturbed(bufs', us', g, pid)
  {
    forall i | 0 <= i < |list|
      ensures Named(bufs', list[i])
    {
      var b := WhichBuf(bufs, list[i]);
      assert Names(bufs'[b], list[i]);
    }
    forall b | 0 <= b < NBUF
      ensures Undisturbed(bufs'[b], us'[b], g, pid)
    {
      assert Undisturbed(bufs[b], us[b], g, pid);
    }
  }

  /** Others take and release buffers; then, if the lock of block `home` is taken, the committing process
      waits until its holder releases it. */
  method Interlude(cache: Cache, g: Geometry, visits: seq<Visit>, home: nat, ghost list: seq<Word>, pid: nat)
    requires cache.Valid() && Ours(cache, g, list, pid)
    modifies cache`users, cache`ring, cache`stamp, cache`clock, cache.buf, cache.next, cache.prev
    ensures cache.Valid() && Ours(cache, g, list, pid) && Fades(cache.disk, old(cache.Latest()), cache.Latest(), list)
    ensures Unlocked(cache.buf[..], home)
  {
    hide Ring.Linked, RecencyOk, PinsOk, AllUndisturbed, Fades, View, BufsOk;
    NoFade(cache.disk, cache.Latest(), list);
    for i := 0 to |visits|
      invariant cache.Valid() && Ours(cache, g, list, pid)
      invariant Fades(cache.disk, old(cache.Latest()), cache.Latest(), list)
    {
      ghost var mem := cache.Latest();
      Admit(cache, g, visits[i], list, pid);
      FadesTrans(cache.disk, old(cache.Latest()), mem, cache.Latest(), list);
    }
    Await(cache, g, home, list, pid);
  }

  method Await(cache: Cache, g: Geometry, home: nat, ghost list: seq<Word>, pid: nat)
    requires cache.Valid() && Ours(cache, g, list, pid)
    modifies cache`users, cache`ring, cache`stamp, cache`clock, cache.buf, cache.next, cache.prev
    ensures cache.Valid() && Ours(cache, g, list, pid) && cache.Latest() == old(cache.Latest())
    ensures Unlocked(cache.buf[..], home)
  {
    hide Ring.Linked, RecencyOk, PinsOk, AllUndisturbed, View;
    ghost var bufs, us := cache.buf[..], cache.users;
    var r := cache.FindCached(ROOTDEV, home);
    if r.Some? && cache.buf[r.value].holder.Some? {
      cache.Brelse(r.value, cache.buf[r.value].holder.value);
      SameNames(bufs, cache.buf[..], us, cache.users, cache.pins, g, list, pid);
    }
  }

  // ----- the rounds of a commit -----

  /** One iteration of `write_log`: copy the cached block `home` to the log block `to`. */
  method LogOne(cache: Cache, g: Geometry, to: nat, home: nat, ghost list: seq<Word>, pid: nat) returns (ok: bool)
    requires cache.Valid() && Ours(cache, g, list, pid) && home in list && InLog(g, to) && to !in list
    requires home < |cache.disk| && to < |cache.disk| && Unlocked(cache.buf[..], home)
    modifies cache, cache.buf, cache.next, cache.prev
    ensures ok <==> SomeIdle(old(cache.users), old(cache.pins))
    ensures cache.Valid() && cache.users == old(cache.users) && cache.pins == old(cache.pins)
    ensures !ok ==> cache.disk == old(cache.disk) && cache.trace == old(cache.trace)
    ensures ok ==>
      var data := old(cache.Latest())[home];
      && Ours(cache, g, list, pid)
      && cache.disk == old(cache.disk)[to := data]
      && Fades(cache.disk, old(cache.Latest())[to := data], cache.Latest(), list)
      && cache.trace == old(cache.trace) + [Write(to, data)]
  {
    hide Ring.Linked, RecencyOk, SomeIdle, View, Faded, Fades, Read;
    ghost var bufs, us, pins, mem := cache.buf[..], cache.users, cache.pins, cache.Latest();
    WhenRoom(bufs, cache.disk, us, pins, g, list, pid, home, to);
    LogUnlocked(bufs, cache.disk, us, pins, g, pid, to);
    ghost var data;
    ok, data := cache.CopyBlock(home, to, true, false, pid);
    if ok {
      assert cache.pins == pins;
      PinnedName(bufs, pins, list, home);
      ReadInUse(bufs, us, pins, old(cache.disk), mem, home, data);
      KeptNames(bufs, us, pins, cache.buf[..], home, to);
      PinsKept(bufs, cache.buf[..], pins, list);
      UndisturbedKept(bufs, us, pins, cache.buf[..], cache.disk, pins, g, pid, home, to);
      FadedListed(bufs, us, pins, cache.disk, mem[to := data], cache.Latest(), list);
    }
  }

  lemma ReadInUse(bufs: seq<Buf>, users: seq<set<nat>>, pins: seq<nat>, disk: Disk, mem: Disk, src: nat, data: Block)
    requires src < |disk| == |mem| && Read(bufs, users, pins, disk, mem, src, data)
    requires |bufs| == |users| == |pins| && exists b :: 0 <= b < |bufs| && Names(bufs[b], src) && pins[b] > 0
    ensures data == mem[src]
  {
    assert InUse(bufs, users, pins, src);
  }

  /** One iteration of `install_trans(0)`: copy a log block to its home block and unpin it. */
  method InstallOne(cache: Cache, g: Geometry, from: nat, home: nat, ghost rest: seq<Word>, pid: nat) returns (ok: bool)
    requires cache.Valid() && Ours(cache, g, rest, pid)
    requires 0 < |rest| && rest[0] == home && rest[0] !in rest[1..] && InLog(g, from) && from !in rest
    requires home < |cache.disk| && from < |cache.disk| && Unlocked(cache.buf[..], home)
    requires cache.Latest()[from] == cache.disk[from]
    modifies cache, cache.buf, cache.next, cache.prev
    ensures ok <==> SomeIdle(old(cache.users), old(cache.pins))
    ensures cache.Valid() && cache.users == old(cache.users)
    ensures !ok ==> cache.disk == old(cache.disk) && cache.trace == old(cache.trace) && cache.pins == old(cache.pins)
    ensures ok ==>
      var data := old(cache.Latest())[from];
      && Ours(cache, g, rest[1..], pid)
      && cache.disk == old(cache.disk)[home := data]
      && Fades(cache.disk, old(cache.Latest())[home := data], cache.Latest(), rest)
      && cache.trace == old(cache.trace) + [Write(home, data)]
  {
    hide Ring.Linked, RecencyOk, View, SomeIdle, Faded, Fades;
    ghost var bufs, us, pins, mem := cache.buf[..], cache.users, cache.pins, cache.Latest();
    WhenRoom(bufs, cache.disk, us, pins, g, rest, pid, home, from);
    LogUnlocked(bufs, cache.disk, us, pins, g, pid, from);
    PinnedName(bufs, pins, rest, home);
    ghost var data;
    ok, data := cache.CopyBlock(from, home, false, true, pid);
    if ok {
      assert data == mem[from];
      hide BufOk, Kept;
      KeptNames(bufs, us, pins, cache.buf[..], from, home);
      PinsDropped(bufs, cache.buf[..], pins, cache.pins, rest);
      UndisturbedKept(bufs, us, pins, cache.buf[..], cache.disk, cache.pins, g, pid, from, home);
      FadedListed(bufs, us, pins, cache.disk, mem[home := data], cache.Latest(), rest);
    }
  }

  lemma KeptNames(bufs: seq<Buf>, us: seq<set<nat>>, pins: seq<nat>, bufs': seq<Buf>, src: nat, dst: nat)
    requires Kept(bufs, us, pins, bufs', src, dst)
    ensures |bufs'| == |bufs| == |pins|
    ensures forall b | 0 <= b < |bufs| && pins[b] > 0 ::
              bufs'[b].dev == bufs[b].dev && bufs'[b].blockno == bufs[b].blockno
  {
  }

  /** One iteration of `install_trans(1)`: nothing is pinned or in use during recovery, and nothing in the
      cache differs from the disk. */
  method ReinstallOne(cache: Cache, g: Geometry, from: nat, home: nat, pid: nat)
    requires cache.Valid() && Ours(cache, g, [], pid) && NobodyUses(cache.users) && cache.Latest() == cache.disk
    requires home < |cache.disk| && from < |cache.disk| && home != from
    modifies cache, cache.buf, cache.next, cache.prev
    ensures cache.Valid() && Ours(cache, g, [], pid) && cache.users == old(cache.users) && cache.Latest() == cache.disk
    ensures
      var data := old(cache.disk)[from];
      cache.disk == old(cache.disk)[home := data] && cache.trace == old(cache.trace) + [Write(home, data)]
  {
    hide Ring.Linked, RecencyOk, View;
    ghost var bufs, us, pins := cache.buf[..], cache.users, cache.pins;
    NobodyLocks(bufs, cache.disk, us, pins);
    assert BufOk(bufs[0], cache.disk, us[0], pins[0]) && BufOk(bufs[1], cache.disk, us[1], pins[1]);
    assert Spare(bufs, 0) && Usable(bufs, 1, from, home);
    ghost var data;
    var ok;
    ok, data := cache.CopyBlock(from, home, false, false, pid);
    assert cache.pins == pins;
    PinsKept(bufs, cache.buf[..], pins, []);
    UndisturbedKept(bufs, us, pins, cache.buf[..], cache.disk, pins, g, pid, from, home);
  }

  lemma NobodyLocks(bufs: seq<Buf>, disk: Disk, us: seq<set<nat>>, pins: seq<nat>)
    requires BufsOk(bufs, disk, us, pins) && NobodyUses(us)
    ensures forall bno :: Unlocked(bufs, bno)
  {
    forall b | 0 <= b < NBUF
      ensures bufs[b].holder.None?
    {
      assert BufOk(bufs[b], disk, us[b], pins[b]);
    }
  }

  /** `write_head`: store `entries` in the header block and write it out. */
  method WriteHead(cache: Cache, g: Geometry, entries: seq<Word>, ghost list: seq<Word>, pid: nat) returns (ok: bool)
    requires cache.Valid() && Ours(cache, g, list, pid)
    requires g.start !in list && InLog(g, g.start) && g.start < |cache.disk|
    requires |entries| <= LOGSIZE && cache.Latest()[g.start] == cache.disk[g.start]
    modifies cache, cache.buf, cache.next, cache.prev
    ensures ok <==> SomeIdle(old(cache.users), old(cache.pins))
    ensures cache.Valid() && cache.users == old(cache.users) && cache.pins == old(cache.pins)
    ensures !ok ==> cache.disk == old(cache.disk) && cache.trace == old(cache.trace)
    ensures ok ==>
      var hb := EncodeHead(old(cache.disk)[g.start], entries);
      && Ours(cache, g, list, pid)
      && cache.disk == old(cache.disk)[g.start := hb]
      && Fades(cache.disk, old(cache.Latest())[g.start := hb], cache.Latest(), list)
      && cache.trace == old(cache.trace) + [Write(g.start, hb)]
  {
    hide Ring.Linked, RecencyOk, Faded, Fades, SomeIdle;
    ghost var bufs, us, pins, mem := cache.buf[..], cache.users, cache.pins, cache.Latest();
    WhenAvailable(bufs, cache.disk, us, pins, g, list, pid, g.start);
    LogUnlocked(bufs, cache.disk, us, pins, g, pid, g.start);
    var r := cache.BreadFree(g.start, pid);
    if r.None? {
      return false;
    }
    ghost var d, taken, mem' := r.value, cache.buf[..], cache.Latest();
    ViewCached(taken, cache.disk, d);
    hide View;
    HeadRead(bufs, us, pins, cache.disk, mem, mem', g.start);
    var hb := FillHead(cache.buf[r.value].data, entries);
    FadedWrite(bufs, us, pins, cache.disk, mem, mem', g.start, hb);
    cache.StoreOne(r.value, g.start, hb, pid);
    assert cache.users == us;
    FadedListed(bufs, us, pins, cache.disk, mem[g.start := hb], cache.Latest(), list);
    OneKept(bufs, us, pins, taken, cache.buf[..], d, g.start);
    KeptNames(bufs, us, pins, cache.buf[..], g.start, g.start);
    PinsKept(bufs, cache.buf[..], pins, list);
    UndisturbedKept(bufs, us, pins, cache.buf[..], cache.disk, pins, g, pid, g.start, g.start);
    ok := true;
  }

  lemma HeadRead(bufs: seq<Buf>, us: seq<set<nat>>, pins: seq<nat>, disk: Disk, mem: Disk, mem': Disk, b: nat)
    requires Faded(bufs, us, pins, disk, mem, mem') && b < |disk| && mem[b] == disk[b]
    ensures mem'[b] == disk[b]
  {
  }

  /** Taking and releasing one buffer. */
  lemma OneKept(bufs: seq<Buf>, us: seq<set<nat>>, pins: seq<nat>, taken: seq<Buf>, bufs': seq<Buf>, d: nat, bno: nat)
    requires d < |bufs| == |us| == |pins| == |taken| && taken == bufs[d := taken[d]] && Released(taken, bufs', d, d)
    requires Unlocked(bufs, bno)
    requires Names(taken[d], bno) && (Names(bufs[d], bno) || (us[d] == {} && pins[d] == 0))
    ensures Kept(bufs, us, pins, bufs', bno, bno)
  {
  }

  method FillHead(was: Block, entries: seq<Word>) returns (hb: Block)
    requires |entries| <= LOGSIZE
    ensures hb == EncodeHead(was, entries)
  {
    hb := WriteWord(was, 0, |entries|);
    var i := 0;
    while i < |entries|
      invariant 0 <= i <= |entries|
      invariant forall j | 0 <= j < 4 + 4 * i :: hb.bytes[j] == HeadByte(was, entries, j)
      invariant forall j | 4 + 4 * i <= j < BSIZE :: hb.bytes[j] == was.bytes[j]
    {
      hb := WriteWord(hb, 1 + i, entries[i]);
      i := i + 1;
    }
    assert hb.bytes == EncodeHead(was, entries).bytes;
  }

  // ----- running a program of disk writes -----

  /** A program of disk writes with the disk, the latest contents and the trace at each point. */
  datatype Plan = Plan(ws: seq<Write>, disks: seq<Disk>, mems: seq<Disk>, traces: seq<seq<Write>>)

  ghost predicate Step(p: Plan, k: nat)
    requires |p.disks| == |p.mems| == |p.traces| == |p.ws| + 1 && k < |p.ws|
  {
    var w := p.ws[k];
    && w.bno < |p.disks[k]| == |p.mems[k]|
    && p.disks[k + 1] == p.disks[k][w.bno := w.data]
    && p.mems[k + 1] == p.mems[k][w.bno := w.data]
    && p.traces[k + 1] == p.traces[k] + [w]
  }

  ghost predicate PlanOk(p: Plan) {
    && |p.disks| == |p.mems| == |p.traces| == |p.ws| + 1
    && forall k | 0 <= k < |p.ws| :: Step(p, k)
  }

  ghost predicate MemIs(p: Plan, mem: Disk, k: nat) {
    InRange(mem, p.ws) && k < |p.mems| && k <= |p.ws| && p.mems[k] == After(mem, p.ws, k)
  }

  /** The latest contents of `p` are those of its writes applied to `mem`. */
  ghost predicate MemsAre(p: Plan, mem: Disk) {
    forall k: nat | k <= |p.ws| :: MemIs(p, mem, k)
  }

  ghost function MakePlan(d: Disk, mem: Disk, t0: seq<Write>, ws: seq<Write>): (p: Plan)
    requires InRange(d, ws) && |mem| == |d|
    ensures PlanOk(p) && p.ws == ws
    ensures p.disks[0] == d && p.mems[0] == mem && p.traces[0] == t0
    ensures MemsAre(p, mem) && forall k: nat | k <= |ws| :: PlanAt(d, mem, t0, p, k)
    ensures p.disks[|ws|] == After(d, ws, |ws|) && p.traces[|ws|] == t0 + ws
  {
    var p := Plan(ws,
                  seq(|ws| + 1, (k: nat) requires k <= |ws| => After(d, ws, k)),
                  seq(|ws| + 1, (k: nat) requires k <= |ws| => After(mem, ws, k)),
                  seq(|ws| + 1, (k: nat) requires k <= |ws| => t0 + ws[..k]));
    assert forall k: nat | k <= |ws| :: PlanAt(d, mem, t0, p, k);
    assert PlanOk(p) by {
      forall k | 0 <= k < |ws|
        ensures Step(p, k)
      {
        PlanAtStep(d, mem, t0, p, k);
      }
    }
    assert ws[..|ws|] == ws;
    p
  }

  lemma PlanStep(d: Disk, t0: seq<Write>, ws: seq<Write>, k: nat)
    requires InRange(d, ws) && k < |ws|
    ensures After(d, ws, k + 1) == After(d, ws, k)[ws[k].bno := ws[k].data]
    ensures t0 + ws[..k + 1] == t0 + ws[..k] + [ws[k]]
  {
  }

  /** `p` is at point `k` what `After` says. */
  ghost predicate PlanAt(d: Disk, mem: Disk, t0: seq<Write>, p: Plan, k: nat) {
    && |p.disks| == |p.mems| == |p.traces| == |p.ws| + 1 && k <= |p.ws| && InRange(d, p.ws) && InRange(mem, p.ws)
    && p.disks[k] == After(d, p.ws, k) && p.mems[k] == After(mem, p.ws, k) && p.traces[k] == t0 + p.ws[..k]
  }

  lemma PlanAtStep(d: Disk, mem: Disk, t0: seq<Write>, p: Plan, k: nat)
    requires |mem| == |d| && k < |p.ws| && PlanAt(d, mem, t0, p, k) && PlanAt(d, mem, t0, p, k + 1)
    ensures Step(p, k)
  {
    PlanStep(d, t0, p.ws, k);
    PlanStep(mem, t0, p.ws, k);
  }

  /** The program has issued its first `k` writes; blocks outside `list` may have been recycled. */
  ghost predicate Issued(cache: Cache, p: Plan, k: nat, list: seq<Word>)
    reads cache, cache.buf
  {
    && PlanOk(p) && k < |p.disks|
    && cache.disk == p.disks[k] && cache.trace == p.traces[k] && Fades(p.disks[k], p.mems[k], cache.Latest(), list)
  }

  /** Nobody but the log writes log blocks, and it writes them to the disk at once. */
  ghost predicate LogSame(p: Plan, g: Geometry, k: nat) {
    && k < |p.disks| && k < |p.mems| && |p.mems[k]| == |p.disks[k]|
    && forall b: nat | b < |p.disks[k]| && InLog(g, b) :: p.mems[k][b] == p.disks[k][b]
  }

  ghost predicate LogAlwaysSame(p: Plan, g: Geometry) {
    forall k: nat | k <= |p.ws| :: LogSame(p, g, k)
  }

  /** Who uses and pins what when a round of the commit asks for its first buffer. */
  datatype Moment = Moment(users: seq<set<nat>>, pins: seq<nat>)

  predicate Enough(m: Moment) {
    SomeIdle(m.users, m.pins)
  }

  predicate AllEnough(when: seq<Moment>) {
    forall k | 0 <= k < |when| :: Enough(when[k])
  }

  /** The commit has stopped at the last of the rounds `when`, the first one that found no idle buffer; the
      writes of the rounds before it are on the disk. */
  ghost predicate Stopped(cache: Cache, p: Plan, when: seq<Moment>)
    reads cache, cache.buf, cache.next, cache.prev
  {
    && cache.Valid() && 0 < |when| <= |p.ws| && AllEnough(when[..|when| - 1]) && !Enough(when[|when| - 1])
    && when[|when| - 1] == Moment(cache.users, cache.pins)
    && PlanOk(p) && cache.disk == p.disks[|when| - 1] && cache.trace == p.traces[|when| - 1]
  }

  /** A write that goes to disk and buffer. */
  lemma IssuedWrite(d: Disk, mem: Disk, m: Disk, m': Disk, list: seq<Word>, b: nat, data: Block)
    requires Fades(d, mem, m, list) && b < |d| && Fades(d[b := data], m[b := data], m', list)
    ensures Fades(d[b := data], mem[b := data], m', list)
  {
  }

  lemma EnoughSoFar(when: seq<Moment>, m: Moment)
    requires AllEnough(when)
    ensures (when + [m])[..|when|] == when && (Enough(m) ==> AllEnough(when + [m]))
  {
  }

  /** `write_log`; `false` is the panic "no buffers". */
  method WriteLog(cache: Cache, g: Geometry, list: seq<Word>, visits: Schedule, ghost p: Plan, pid: nat)
    returns (ok: bool, ghost when: seq<Moment>)
    requires cache.Valid() && Ours(cache, g, list, pid) && Issued(cache, p, 0, list) && LogsAll(p, g, list)
    modifies cache, cache.buf, cache.next, cache.prev
    ensures ok ==> cache.Valid() && Ours(cache, g, list, pid) && Issued(cache, p, |list|, list)
                   && |when| == |list| && AllEnough(when)
    ensures !ok ==> Stopped(cache, p, when)
  {
    hide Ring.Linked, RecencyOk, BufsOk, PinsOk, AllUndisturbed, Enough, Fades;
    when := [];
    var tail := 0;
    while tail < |list|
      invariant 0 <= tail <= |list| && |when| == tail && AllEnough(when)
      invariant cache.Valid() && Ours(cache, g, list, pid) && Issued(cache, p, tail, list)
    {
      assert Logs(p, g, list, tail);
      ok, when := LogRound(cache, g, g.start + tail + 1, list[tail], visits(tail), list, p, tail, when, pid);
      if !ok {
        return;
      }
      tail := tail + 1;
    }
    ok := true;
  }

  /** Write `i` of `p` copies the latest contents of the `i`th listed block to log block `i`. */
  ghost predicate Logs(p: Plan, g: Geometry, list: seq<Word>, i: nat) {
    var to := g.start + 1 + i;
    && PlanOk(p) && i < |list| && i < |p.ws| && list[i] < |p.mems[i]| && to < |p.mems[i]|
    && InLog(g, to) && to !in list && p.ws[i] == Write(to, p.mems[i][list[i]])
  }

  ghost predicate LogsAll(p: Plan, g: Geometry, list: seq<Word>) {
    forall i | 0 <= i < |list| :: Logs(p, g, list, i)
  }

  /** `LogOne` as the `k`th write of the commit, after what others do meanwhile. */
  method LogRound(cache: Cache, g: Geometry, to: nat, home: nat, visits: seq<Visit>, ghost list: seq<Word>,
                  ghost p: Plan, ghost k: nat, ghost when: seq<Moment>, pid: nat)
    returns (ok: bool, ghost when': seq<Moment>)
    requires cache.Valid() && Ours(cache, g, list, pid) && home in list && InLog(g, to) && to !in list
    requires Issued(cache, p, k, list) && k < |p.ws| && home < |p.mems[k]| && to < |p.mems[k]|
    requires p.ws[k] == Write(to, p.mems[k][home]) && |when| == k && AllEnough(when)
    modifies cache, cache.buf, cache.next, cache.prev
    ensures ok ==> cache.Valid() && Ours(cache, g, list, pid) && Issued(cache, p, k + 1, list)
                   && |when'| == k + 1 && AllEnough(when')
    ensures !ok ==> Stopped(cache, p, when')
  {
    hide Ring.Linked, RecencyOk, BufsOk, PinsOk, AllUndisturbed, SomeIdle, AllEnough, View;
    assert Step(p, k);
    ghost var mem := cache.Latest();
    Interlude(cache, g, visits, home, list, pid);
    FadesTrans(cache.disk, p.mems[k], mem, cache.Latest(), list);
    ghost var mem' := cache.Latest();
    when' := when + [Moment(cache.users, cache.pins)];
    EnoughSoFar(when, when'[k]);
    ok := LogOne(cache, g, to, home, list, pid);
    if ok {
      IssuedWrite(p.disks[k], p.mems[k], mem', cache.Latest(), list, to, mem'[home]);
    }
  }

  /** Write `k0 + i` of `p` copies log block `i` to the `i`th listed block. */
  ghost predicate Installs(p: Plan, k0: nat, g: Geometry, list: seq<Word>, i: nat) {
    var from := g.start + 1 + i;
    && PlanOk(p) && i < |list| && k0 + i < |p.ws| && from < |p.mems[k0 + i]| && list[i] < |p.mems[k0 + i]|
    && InLog(g, from) && from !in list && p.ws[k0 + i] == Write(list[i], p.mems[k0 + i][from])
  }

  ghost predicate InstallsAll(p: Plan, k0: nat, g: Geometry, list: seq<Word>) {
    forall i | 0 <= i < |list| :: Installs(p, k0, g, list, i)
  }

  /** `install_trans(0)`, as the writes of `p` from the `k0`th up to the `k1`th. */
  method InstallTrans(cache: Cache, g: Geometry, list: seq<Word>, visits: Schedule, k0: nat, ghost k1: nat,
                      ghost p: Plan, ghost before: seq<Moment>, pid: nat)
    returns (ok: bool, ghost when: seq<Moment>)
    requires NoRepeats(list) && cache.Valid() && Ours(cache, g, list, pid) && LogAlwaysSame(p, g)
    requires Issued(cache, p, k0, list) && InstallsAll(p, k0, g, list) && k1 == k0 + |list|
    requires |before| == k0 && AllEnough(before)
    modifies cache, cache.buf, cache.next, cache.prev
    ensures ok ==> cache.Valid() && Ours(cache, g, [], pid) && Issued(cache, p, k1, [])
                   && |when| == k1 && AllEnough(when)
    ensures !ok ==> Stopped(cache, p, when)
  {
    hide Ring.Linked, RecencyOk, BufsOk, PinsOk, AllUndisturbed, Enough, Fades, LogAlwaysSame;
    ghost var rest, k := list, k0;
    when := before;
    var tail := 0;
    while tail < |list|
      invariant 0 <= tail <= |list| && rest == list[tail..] && k == k0 + tail && |when| == k && AllEnough(when)
      invariant cache.Valid() && Ours(cache, g, rest, pid) && Issued(cache, p, k, rest)
    {
      Suffix(list, tail);
      assert Installs(p, k0, g, list, tail);
      ok, when := InstallRound(cache, g, g.start + tail + 1, list[tail], visits(k0 + tail), rest, p, k, when, pid);
      if !ok {
        return;
      }
      tail, rest, k := tail + 1, rest[1..], k + 1;
    }
    assert rest == [];
    ok := true;
  }

  lemma Suffix(list: seq<Word>, k: nat)
    requires NoRepeats(list) && k < |list|
    ensures list[k..][1..] == list[k + 1..] && list[k..][0] == list[k] && list[k] !in list[k + 1..]
    ensures forall x | x !in list :: x !in list[k..]
  {
  }

  /** `InstallOne` as the `k`th write of the commit, after what others do meanwhile. */
  method InstallRound(cache: Cache, g: Geometry, from: nat, home: nat, visits: seq<Visit>, ghost rest: seq<Word>,
                      ghost p: Plan, ghost k: nat, ghost when: seq<Moment>, pid: nat)
    returns (ok: bool, ghost when': seq<Moment>)
    requires cache.Valid() && Ours(cache, g, rest, pid) && LogAlwaysSame(p, g)
    requires 0 < |rest| && rest[0] == home && rest[0] !in rest[1..] && InLog(g, from) && from !in rest
    requires Issued(cache, p, k, rest) && k < |p.ws| && home < |p.mems[k]| && from < |p.mems[k]|
    requires p.ws[k] == Write(home, p.mems[k][from]) && |when| == k && AllEnough(when)
    modifies cache, cache.buf, cache.next, cache.prev
    ensures ok ==> cache.Valid() && Ours(cache, g, rest[1..], pid) && Issued(cache, p, k + 1, rest[1..])
                   && |when'| == k + 1 && AllEnough(when')
    ensures !ok ==> Stopped(cache, p, when')
  {
    hide Ring.Linked, RecencyOk, BufsOk, PinsOk, AllUndisturbed, SomeIdle, AllEnough, View;
    assert Step(p, k) && LogSame(p, g, k);
    ghost var mem := cache.Latest();
    Interlude(cache, g, visits, home, rest, pid);
    FadesTrans(cache.disk, p.mems[k], mem, cache.Latest(), rest);
    ghost var mem' := cache.Latest();
    when' := when + [Moment(cache.users, cache.pins)];
    EnoughSoFar(when, when'[k]);
    ok := InstallOne(cache, g, from, home, rest, pid);
    if ok {
      IssuedWrite(p.disks[k], p.mems[k], mem', cache.Latest(), rest, home, p.mems[k][from]);
      FadesLess(cache.disk, p.mems[k + 1], cache.Latest(), rest);
    }
  }

  lemma FadesLess(disk: Disk, mem: Disk, mem': Disk, list: seq<Word>)
    requires Fades(disk, mem, mem', list) && list != []
    ensures Fades(disk, mem, mem', list[1..])
  {
  }

  /** `install_trans(1)`, as the first writes of `p`. */
  method ReinstallTrans(cache: Cache, g: Geometry, list: seq<Word>, ghost p: Plan, pid: nat)
    requires cache.Valid() && Ours(cache, g, [], pid) && NobodyUses(cache.users) && Matches(cache, p, 0)
    requires InstallsAll(p, 0, g, list) && p.disks == p.mems
    modifies cache, cache.buf, cache.next, cache.prev
    ensures cache.Valid() && Ours(cache, g, [], pid) && cache.users == old(cache.users) && Matches(cache, p, |list|)
  {
    hide Ring.Linked, RecencyOk, BufsOk, PinsOk, AllUndisturbed, NobodyUses;
    var tail := 0;
    while tail < |list|
      invariant 0 <= tail <= |list| && cache.users == old(cache.users)
      invariant cache.Valid() && Ours(cache, g, [], pid) && Matches(cache, p, tail)
    {
      assert Installs(p, 0, g, list, tail) && Step(p, tail);
      ReinstallOne(cache, g, g.start + tail + 1, list[tail], pid);
      tail := tail + 1;
    }
  }

  /** The program has issued its first `k` writes, and the cache holds nothing else than the disk. */
  ghost predicate Matches(cache: Cache, p: Plan, k: nat)
    reads cache, cache.buf
  {
    && PlanOk(p) && k < |p.disks|
    && cache.disk == p.disks[k] == cache.Latest() && cache.trace == p.traces[k]
  }

  /** Write `k` of `p` stores a header listing `entries`. */
  ghost predicate PutsHead(p: Plan, g: Geometry, entries: seq<Word>, k: nat) {
    && PlanOk(p) && k < |p.ws| && g.start < |p.mems[k]| && |entries| <= LOGSIZE
    && p.ws[k] == Write(g.start, EncodeHead(p.mems[k][g.start], entries))
  }

  /** `WriteHead` as the `k`th write of the commit, after what others do meanwhile. */
  method HeadRound(cache: Cache, g: Geometry, entries: seq<Word>, visits: seq<Visit>, ghost list: seq<Word>,
                   ghost p: Plan, ghost k: nat, ghost when: seq<Moment>, pid: nat)
    returns (ok: bool, ghost when': seq<Moment>)
    requires cache.Valid() && Ours(cache, g, list, pid) && LogAlwaysSame(p, g)
    requires g.start !in list && InLog(g, g.start) && Issued(cache, p, k, list) && PutsHead(p, g, entries, k)
    requires |when| == k && AllEnough(when)
    modifies cache, cache.buf, cache.next, cache.prev
    ensures ok ==> cache.Valid() && Ours(cache, g, list, pid) && Issued(cache, p, k + 1, list)
                   && |when'| == k + 1 && AllEnough(when')
    ensures !ok ==> Stopped(cache, p, when')
  {
    hide Ring.Linked, RecencyOk, BufsOk, PinsOk, AllUndisturbed, SomeIdle, AllEnough, View;
    assert Step(p, k) && LogSame(p, g, k);
    ghost var mem := cache.Latest();
    Interlude(cache, g, visits, g.start, list, pid);
    FadesTrans(cache.disk, p.mems[k], mem, cache.Latest(), list);
    ghost var mem' := cache.Latest();
    when' := when + [Moment(cache.users, cache.pins)];
    EnoughSoFar(when, when'[k]);
    ok := WriteHead(cache, g, entries, list, pid);
    if ok {
      IssuedWrite(p.disks[k], p.mems[k], mem', cache.Latest(), list, g.start, p.ws[k].data);
    }
  }

  // ----- the program `commit` runs -----

  /** What `commit` does, in terms of the latest contents it finds: log the blocks, list them in
      the header, install them from the log, clear the header. */
  ghost predicate IsCommit(g: Geometry, list: seq<Word>, p: Plan, last: nat) {
    && last == |list| + 1 + |list|
    && g.start !in list && InLog(g, g.start)
    && LogsAll(p, g, list)
    && PutsHead(p, g, list, |list|)
    && InstallsAll(p, |list| + 1, g, list)
    && PutsHead(p, g, [], last)
  }

  /** The whole of `commit` for a non-empty header: `false` is the panic "no buffers". */
  method RunCommit(cache: Cache, g: Geometry, list: seq<Word>, visits: Schedule, ghost p: Plan, ghost last: nat,
                   ghost end: nat, pid: nat)
    returns (ok: bool, ghost when: seq<Moment>)
    requires NoRepeats(list) && cache.Valid() && Ours(cache, g, list, pid) && LogAlwaysSame(p, g)
    requires IsCommit(g, list, p, last) && end == last + 1 == |p.ws| && Issued(cache, p, 0, list)
    modifies cache, cache.buf, cache.next, cache.prev
    ensures ok ==> cache.Valid() && Ours(cache, g, [], pid) && Issued(cache, p, end, [])
                   && |when| == end && AllEnough(when)
    ensures !ok ==> Stopped(cache, p, when)
  {
    hide Ring.Linked, RecencyOk, BufsOk, PinsOk, AllUndisturbed, Fades, AllEnough, LogAlwaysSame;
    ok, when := WriteLog(cache, g, list, visits, p, pid);
    if ok {
      ok, when := HeadRound(cache, g, list, visits(|list|), list, p, |list|, when, pid);
    }
    if ok {
      ok, when := InstallTrans(cache, g, list, visits, |list| + 1, last, p, when, pid);
      if ok {
        ok, when := HeadRound(cache, g, [], visits(2 * |list| + 1), [], p, last, when, pid);
      }
    }
  }

  /** Writes of the shape of a commit, with headers made from the cached header block, are what
      `commit` does. */
  lemma CommitIs(g: Geometry, hs: Heads, list: seq<Word>, mem: Disk, p: Plan)
    requires CommitShape(g, hs, list, mem, p.ws) && InRange(mem, p.ws) && |list| <= LOGSIZE
    requires PlanOk(p) && MemsAre(p, mem)
    requires hs == CommitHeads(mem[g.start], list)
    ensures IsCommit(g, list, p, |p.ws| - 1)
  {
    assert InLog(g, g.start);
    CommitLogs(g, hs, list, mem, p);
    CommitHeaders(g, hs, list, mem, p);
    CommitInstalls(g, hs, list, mem, p);
  }

  /** What `commit` writes for a header listing `list`, on disk `d` and latest contents `mem`. */
  ghost function CommitProgram(g: Geometry, d: Disk, list: seq<Word>, mem: Disk): (ws: seq<Write>)
    requires g.start < |d| && GoodList(g, |mem|, list)
  {
    CommitWrites(g, CommitHeads(d[g.start], list), list, mem)
  }

  /** Crash atomicity of what `commit` issues: stop it after any of its writes, cut any number of
      recoveries short, and a completed recovery leaves the old contents or the new ones. */
  lemma CommitCrashSafe(g: Geometry, d: Disk, list: seq<Word>, mem: Disk, k: nat, cuts: seq<nat>)
    requires GoodDisk(g, d) && Listed(g, d) == [] && |mem| == |d| && GoodList(g, |d|, list) && g.start < |d|
    requires k <= |CommitProgram(g, d, list, mem)|
    ensures InRange(d, CommitProgram(g, d, list, mem))
    ensures var e := After(d, CommitProgram(g, d, list, mem), k);
            && GoodDisk(g, e)
            && Home(g, Recovered(g, Crashed(g, e, cuts))) ==
                 if k <= |list| then Home(g, d) else Updated(g, d, list, mem)
  {
    CommitHeadsOk(d[g.start], list);
    CrashAtomicity(g, d, CommitHeads(d[g.start], list), list, mem, k, cuts);
  }

  /** The cache holds log blocks as the disk has them. */
  predicate LogSettled(g: Geometry, d: Disk, mem: Disk) {
    |mem| == |d| && forall b: nat | b < |d| && InLog(g, b) :: mem[b] == d[b]
  }

  /** The plan that `commit` follows. */
  lemma CommitPlan(g: Geometry, d: Disk, list: seq<Word>, mem: Disk, t0: seq<Write>) returns (p: Plan)
    requires GoodDisk(g, d) && Listed(g, d) == [] && GoodList(g, |d|, list) && LogSettled(g, d, mem)
    ensures PlanOk(p) && p.ws == CommitProgram(g, d, list, mem) && InRange(d, p.ws)
    ensures p.disks[0] == d && p.mems[0] == mem && p.traces[0] == t0
    ensures forall k: nat | k <= |p.ws| :: p.disks[k] == After(d, p.ws, k) && p.traces[k] == t0 + p.ws[..k]
    ensures LogAlwaysSame(p, g) && Ends(g, d, list, mem, p)
    ensures IsCommit(g, list, p, |p.ws| - 1)
  {
    var hs := CommitHeads(d[g.start], list);
    CommitHeadsOk(d[g.start], list);
    CommitHasShape(g, d, hs, list, mem);
    p := MakePlan(d, mem, t0, CommitWrites(g, hs, list, mem));
    assert InLog(g, g.start);
    CommitIs(g, hs, list, mem, p);
    PlanSame(g, d, mem, t0, p);
    AllInstalled(g, hs, list, d, mem, p);
  }

  /** What a commit ends with: listed and log blocks are the same in the cache and on the disk, and the
      others are in the cache what they were. */
  ghost predicate Ends(g: Geometry, d: Disk, list: seq<Word>, mem: Disk, p: Plan) {
    var n := |p.ws|;
    && n < |p.disks| && n < |p.mems| && |p.disks[n]| == |p.mems[n]| == |mem| == |d|
    && forall b: nat | b < |d| ::
         p.mems[n][b] == p.disks[n][b] || (b !in list && !InLog(g, b) && p.mems[n][b] == mem[b])
  }

  lemma PlanSame(g: Geometry, d: Disk, mem: Disk, t0: seq<Write>, p: Plan)
    requires InRange(d, p.ws) && LogSettled(g, d, mem) && forall k: nat | k <= |p.ws| :: PlanAt(d, mem, t0, p, k)
    ensures LogAlwaysSame(p, g)
  {
    forall k: nat | k <= |p.ws|
      ensures LogSame(p, g, k)
    {
      assert PlanAt(d, mem, t0, p, k);
      forall b: nat | b < |d| && InLog(g, b)
        ensures p.mems[k][b] == p.disks[k][b]
      {
        SameAfter(d, mem, p.ws, k, b);
      }
    }
  }

  /** The same writes end in the same contents of a block that they write or that was the same before. */
  lemma {:induction false} SameAfter(d: Disk, mem: Disk, ws: seq<Write>, k: nat, b: nat)
    requires InRange(d, ws) && |mem| == |d| && k <= |ws| && b < |d|
    requires d[b] == mem[b] || exists i :: 0 <= i < k && ws[i].bno == b
    ensures After(d, ws, k)[b] == After(mem, ws, k)[b]
  {
    if k > 0 && ws[k - 1].bno != b {
      SameAfter(d, mem, ws, k - 1, b);
    }
  }

  /** Once a commit is done, the listed blocks are in their places. */
  lemma AllInstalled(g: Geometry, hs: Heads, list: seq<Word>, d: Disk, mem: Disk, p: Plan)
    requires CommitShape(g, hs, list, mem, p.ws) && InRange(d, p.ws) && LogSettled(g, d, mem) && InLog(g, g.start)
    requires |p.disks| == |p.mems| == |p.ws| + 1 && MemIs(p, mem, |p.ws|) && p.disks[|p.ws|] == After(d, p.ws, |p.ws|)
    ensures Ends(g, d, list, mem, p)
  {
    var ws := p.ws;
    forall b: nat | b < |d|
      ensures p.mems[|ws|][b] == p.disks[|ws|][b] || (b !in list && !InLog(g, b) && p.mems[|ws|][b] == mem[b])
    {
      if b in list {
        var i :| 0 <= i < |list| && list[i] == b;
        assert ws[|list| + 1 + i].bno == b;
        SameAfter(d, mem, ws, |ws|, b);
      } else if InLog(g, b) {
        SameAfter(d, mem, ws, |ws|, b);
      } else {
        forall i | 0 <= i < |ws|
          ensures ws[i].bno != b
        {
          WriteWhere(g, hs, list, mem, ws, i);
        }
        LogDisk.Untouched(mem, ws, 0, |ws|, b);
      }
    }
  }

  lemma WriteWhere(g: Geometry, hs: Heads, list: seq<Word>, mem: Disk, ws: seq<Write>, i: nat)
    requires CommitShape(g, hs, list, mem, ws) && i < |ws| && InLog(g, g.start)
    ensures InLog(g, ws[i].bno) || ws[i].bno in list
  {
    var n := |list|;
    if i < n {
      assert ws[i] == Write(g.start + 1 + i, mem[list[i]]);
    } else if n < i <= 2 * n {
      assert ws[i] == Write(list[i - n - 1], mem[list[i - n - 1]]);
    }
  }

  /** The first writes log the blocks' latest contents. */
  lemma CommitLogs(g: Geometry, hs: Heads, list: seq<Word>, mem: Disk, p: Plan)
    requires CommitShape(g, hs, list, mem, p.ws) && InRange(mem, p.ws)
    requires PlanOk(p) && MemsAre(p, mem)
    ensures LogsAll(p, g, list)
  {
    forall i | 0 <= i < |list|
      ensures Logs(p, g, list, i)
    {
      assert InLog(g, g.start + 1 + i) && MemIs(p, mem, i);
      Untouched(mem, p.ws, 0, i, list[i]);
    }
  }

  /** The headers are built from the header block as the cache has it. */
  lemma CommitHeaders(g: Geometry, hs: Heads, list: seq<Word>, mem: Disk, p: Plan)
    requires CommitShape(g, hs, list, mem, p.ws) && InRange(mem, p.ws) && PlanOk(p) && MemsAre(p, mem)
    ensures |p.mems[|list|]| == |p.mems[|p.ws| - 1]| == |mem|
    ensures p.mems[|list|][g.start] == mem[g.start]
    ensures p.mems[|p.ws| - 1][g.start] == hs.full
  {
    assert InLog(g, g.start);
    assert MemIs(p, mem, |list|) && MemIs(p, mem, |p.ws| - 1);
    Untouched(mem, p.ws, 0, |list|, g.start);
    Stays(mem, p.ws, |list|, |p.ws| - 1);
  }

  /** Installing log block `i` copies the contents that were logged. */
  lemma CommitInstalls(g: Geometry, hs: Heads, list: seq<Word>, mem: Disk, p: Plan)
    requires CommitShape(g, hs, list, mem, p.ws) && InRange(mem, p.ws)
    requires PlanOk(p) && MemsAre(p, mem)
    ensures InstallsAll(p, |list| + 1, g, list)
  {
    var k0 := |list| + 1;
    forall i | 0 <= i < |list|
      ensures Installs(p, k0, g, list, i)
    {
      assert InLog(g, g.start + 1 + i);
      assert MemIs(p, mem, k0 + i);
      LogBlockStays(g, hs, list, mem, p.ws, i, k0 + i);
      assert p.ws[k0 + i] == Write(list[i], mem[list[i]]);
    }
  }

  /** A log block keeps its contents while the header and the home blocks are written. */
  lemma LogBlockStays(g: Geometry, hs: Heads, list: seq<Word>, mem: Disk, ws: seq<Write>, i: nat, k: nat)
    requires CommitShape(g, hs, list, mem, ws) && InRange(mem, ws) && i < |list| && i < k < |ws|
    ensures After(mem, ws, k)[g.start + 1 + i] == mem[list[i]]
  {
    assert InLog(g, g.start + 1 + i);
    Stays(mem, ws, i, k);
  }

  /** Pinning the buffer of a block that was not listed. */
  lemma PinsAdded(bufs: seq<Buf>, bufs': seq<Buf>, pins: seq<nat>, list: seq<Word>, b: nat)
    requires PinsOk(bufs, pins, list) && Unique(bufs) && b < NBUF && bufs[b].dev == ROOTDEV
    requires bufs[b].blockno < 0x1_0000_0000 && bufs[b].blockno !in list
    requires bufs' == bufs[b := bufs[b].(refcnt := bufs[b].refcnt + 1)]
    ensures PinsOk(bufs', pins[b := pins[b] + 1], list + [bufs[b].blockno])
  {
    var list' := list + [bufs[b].blockno];
    forall i | 0 <= i < |list'|
      ensures Named(bufs', list'[i])
    {
      var x := if i < |list| then WhichBuf(bufs, list[i]) else b;
      assert Names(bufs'[x], list'[i]);
    }
  }

  /** The buffers hold what they held, and no pin is gone. */
  ghost predicate Repinned(bufs: seq<Buf>, pins: seq<nat>, bufs': seq<Buf>, pins': seq<nat>) {
    && |bufs| == |bufs'| == |pins| == |pins'| == NBUF
    && forall b | 0 <= b < NBUF :: bufs'[b].(refcnt := 0) == bufs[b].(refcnt := 0) && pins[b] <= pins'[b]
  }

  /** The scan of `log_write`: where `bno` is listed, or the first unused entry. */
  method FindSlot(block: array<Word>, n: nat, bno: nat) returns (i: nat)
    requires n <= block.Length
    ensures i <= n && bno !in block[..i] && (i < n ==> block[i] == bno)
  {
    i := 0;
    while i < n && block[i] != bno
      invariant 0 <= i <= n && forall j | 0 <= j < i :: block[j] != bno
    {
      i := i + 1;
    }
  }

  class Logger {
    const cache: Cache
    const g: Geometry
    const block: array<Word>
    var n: nat
    var outstanding: nat
    var committing: bool

    /** `log.lh.block[..log.lh.n]`. */
    function List(): seq<Word>
      reads this, block
      requires n <= block.Length
    {
      block[..n]
    }

    ghost predicate Valid()
      reads this, block, cache, cache.buf, cache.next, cache.prev
    {
      && block.Length == LOGSIZE && n <= LOGSIZE
      && cache.Valid()
      && 0 < g.size && g.start + g.size <= |cache.disk|
      && GoodList(g, |cache.disk|, List()) && NoRepeats(List())
    }

    /** The first half of `initlog`; `RecoverFromLog` is the second. */
    constructor (cache: Cache, g: Geometry)
      requires cache.Valid() && cache.pins == seq(NBUF, _ => 0)
      requires 0 < g.size && g.start + g.size <= |cache.disk|
      ensures Valid() && this.cache == cache && this.g == g && n == 0 && outstanding == 0 && !committing
      ensures fresh(block)
    {
      this.cache, this.g := cache, g;
      block := new Word[LOGSIZE](_ => 0);
      n, outstanding, committing := 0, 0, false;
    }

    /** `recover_from_log` at boot: the home blocks become what the disk stands for. */
    method RecoverFromLog(pid: nat)
      requires Valid() && Ours(cache, g, [], pid) && NobodyUses(cache.users) && GoodDisk(g, cache.disk)
      requires cache.Latest() == cache.disk
      modifies this`n, block, cache, cache.buf, cache.next, cache.prev
      ensures Valid() && n == 0 && Ours(cache, g, [], pid) && cache.users == old(cache.users)
      ensures cache.Latest() == cache.disk
      ensures cache.disk == Recovered(g, old(cache.disk))
      ensures cache.trace == old(cache.trace) + RecoverWrites(g, old(cache.disk))
    {
      hide Ring.Linked, RecencyOk, BufsOk, PinsOk, AllUndisturbed, NobodyUses;
      var hb := FetchBlock(cache, g, g.start, pid);
      n := ReadHead(hb, block);
      Reinstall(cache, g, block[..n], pid);
      n := 0;
    }

    /** One pass of `begin_op`'s loop: `false` means it goes to sleep. */
    method TryBeginOp() returns (begun: bool)
      requires Valid()
      modifies this`outstanding
      ensures Valid()
      ensures begun <==> !committing && n + (old(outstanding) + 1) * MAXOPBLOCKS <= LOGSIZE
      ensures outstanding == old(outstanding) + if begun then 1 else 0
    {
      begun := !committing && n + (outstanding + 1) * MAXOPBLOCKS <= LOGSIZE;
      if begun {
        outstanding := outstanding + 1;
      }
    }

    /** `end_op`: the last outstanding operation commits before it returns. `false` is a panic. */
    method EndOp(visits: Schedule, pid: nat) returns (ok: bool, ghost when: seq<Moment>)
      requires Valid() && outstanding >= 1
      requires outstanding == 1 && !committing ==>
        && Ours(cache, g, List(), pid) && GoodDisk(g, cache.disk) && Listed(g, cache.disk) == []
        && LogSettled(g, cache.disk, cache.Latest())
      modifies this`n, this`outstanding, this`committing, cache, cache.buf, cache.next, cache.prev
      ensures outstanding == old(outstanding) - 1
      ensures old(committing) ==> !ok
      ensures outstanding > 0 && !old(committing) ==> ok
      ensures ok ==> Valid() && !committing
      ensures outstanding > 0 || old(committing) ==>
                && n == old(n) && cache.disk == old(cache.disk) && cache.trace == old(cache.trace)
                && cache.buf[..] == old(cache.buf[..]) && cache.users == old(cache.users)
                && cache.pins == old(cache.pins)
      ensures outstanding == 0 && !old(committing) ==>
                Committed(g, old(cache.disk), old(List()), old(cache.Latest()), old(cache.trace), this, ok, when, pid)
    {
      outstanding := outstanding - 1;
      when := [];
      if committing {
        return false, when;
      }
      ok := true;
      if outstanding == 0 {
        committing := true;
        ok, when := Commit(visits, pid);
        if ok {
          committing := false;
        }
      }
    }

    /** `log_write`: list the block, absorbing a repeat, and pin its buffer on first listing.
        `false` is the panic for a full log or a call outside an operation. */
    method LogWrite(b: nat) returns (ok: bool)
      requires Valid() && PinsOk(cache.buf[..], cache.pins, List())
      requires b < NBUF && cache.buf[b].valid && cache.buf[b].blockno < 0x1_0000_0000 && !InLog(g, cache.buf[b].blockno)
      modifies this`n, block, cache`pins, cache.buf
      ensures ok <==> old(n) < LOGSIZE && old(n) < g.size - 1 && outstanding >= 1
      ensures !ok ==>
                && n == old(n) && block[..] == old(block[..]) && cache.pins == old(cache.pins)
                && cache.buf[..] == old(cache.buf[..])
      ensures ok ==> Valid() && PinsOk(cache.buf[..], cache.pins, List()) && cache.Latest() == old(cache.Latest())
      ensures ok ==> List() == Absorb(old(List()), old(cache.buf[b]).blockno)
      ensures ok ==> Repinned(old(cache.buf[..]), old(cache.pins), cache.buf[..], cache.pins)
    {
      if n >= LOGSIZE || n >= g.size - 1 || outstanding < 1 {
        return false;
      }
      var i := FindSlot(block, n, cache.buf[b].blockno);
      if i == n {
        AppendAndPin(b);
      } else {
        block[i] := cache.buf[b].blockno;
        assert block[..] == old(block[..]);
      }
      ok := true;
    }

    /** List the block of buffer `b`, not listed so far, and pin it. */
    method AppendAndPin(b: nat)
      requires Valid() && PinsOk(cache.buf[..], cache.pins, List()) && n < LOGSIZE && n + 1 < g.size
      requires b < NBUF && cache.buf[b].valid && cache.buf[b].blockno < 0x1_0000_0000
      requires !InLog(g, cache.buf[b].blockno) && cache.buf[b].blockno !in List()
      modifies this`n, block, cache`pins, cache.buf
      ensures Valid() && PinsOk(cache.buf[..], cache.pins, List()) && cache.Latest() == old(cache.Latest())
      ensures List() == old(List()) + [old(cache.buf[b]).blockno]
      ensures Repinned(old(cache.buf[..]), old(cache.pins), cache.buf[..], cache.pins)
    {
      ghost var list, bufs, pins := List(), cache.buf[..], cache.pins;
      block[n] := cache.buf[b].blockno;
      cache.Bpin(b);
      n := n + 1;
      assert List() == list + [bufs[b].blockno];
      PinsAdded(bufs, cache.buf[..], pins, list, b);
    }

    /** `commit`: issue the writes of `CommitProgram` one after another, while other processes take and
        release buffers. It panics for want of buffers exactly at the first round that finds every buffer
        pinned or in use, with the writes before that round on the disk. */
    method Commit(visits: Schedule, pid: nat) returns (ok: bool, ghost when: seq<Moment>)
      requires Valid() && Ours(cache, g, List(), pid)
      requires GoodDisk(g, cache.disk) && Listed(g, cache.disk) == [] && LogSettled(g, cache.disk, cache.Latest())
      modifies this`n, cache, cache.buf, cache.next, cache.prev
      ensures ok ==> Valid()
      ensures Committed(g, old(cache.disk), old(List()), old(cache.Latest()), old(cache.trace), this, ok, when, pid)
    {
      hide Ring.Linked, RecencyOk, BufsOk, PinsOk, AllUndisturbed, SomeIdle;
      ok, when := true, [];
      if n > 0 {
        ok, when := CommitBlocks(cache, g, List(), visits, pid);
      } else {
        assert List() == [];
      }
      if ok {
        n := 0;
      }
    }
  }

  /** What `commit` writes: nothing for an empty list. */
  ghost function Program(g: Geometry, d: Disk, list: seq<Word>, mem: Disk): seq<Write>
    requires g.start < |d| && GoodList(g, |mem|, list)
  {
    if list == [] then [] else CommitProgram(g, d, list, mem)
  }

  /** The first `k` writes of the commit are on the disk. */
  ghost predicate Wrote(cache: Cache, g: Geometry, d: Disk, list: seq<Word>, mem: Disk, t0: seq<Write>, k: nat)
    reads cache
  {
    && g.start < |d| && GoodList(g, |mem|, list) && InRange(d, Program(g, d, list, mem))
    && k <= |Program(g, d, list, mem)|
    && cache.disk == After(d, Program(g, d, list, mem), k) && cache.trace == t0 + Program(g, d, list, mem)[..k]
  }

  /** Listed and log blocks are as the disk has them; another block may be as it was. */
  predicate Settled(g: Geometry, list: seq<Word>, disk: Disk, mem: Disk, mem': Disk) {
    && |disk| == |mem| == |mem'|
    && forall b: nat | b < |disk| :: mem'[b] == disk[b] || (b !in list && !InLog(g, b) && mem'[b] == mem[b])
  }

  /** What a commit that found disk `d`, list `list`, latest contents `mem` and trace `t0` leaves: all its
      writes and an empty list, or those before the first round that found no idle buffer. `when` are the
      moments of its rounds. */
  ghost predicate Committed(g: Geometry, d: Disk, list: seq<Word>, mem: Disk, t0: seq<Write>, lg: Logger, ok: bool,
                            when: seq<Moment>, pid: nat)
    reads lg, lg.block, lg.cache, lg.cache.buf
  {
    && g.start < |d| && GoodList(g, |mem|, list) && lg.n <= lg.block.Length
    && var n := |Program(g, d, list, mem)|;
       if ok then
         && |when| == n && AllEnough(when) && lg.n == 0 && Ours(lg.cache, g, [], pid)
         && Wrote(lg.cache, g, d, list, mem, t0, n) && Settled(g, list, lg.cache.disk, mem, lg.cache.Latest())
       else
         && 0 < |when| <= n && AllEnough(when[..|when| - 1]) && !Enough(when[|when| - 1])
         && when[|when| - 1] == Moment(lg.cache.users, lg.cache.pins) && lg.List() == list
         && Wrote(lg.cache, g, d, list, mem, t0, |when| - 1)
  }

  /** `bread`, take the contents, `brelse`. */
  method FetchBlock(cache: Cache, g: Geometry, bno: nat, pid: nat) returns (data: Block)
    requires cache.Valid() && Ours(cache, g, [], pid) && NobodyUses(cache.users) && cache.Latest() == cache.disk
    requires bno < |cache.disk|
    modifies cache`users, cache`ring, cache`stamp, cache`clock, cache.buf, cache.next, cache.prev
    ensures cache.Valid() && Ours(cache, g, [], pid) && cache.Latest() == cache.disk && cache.users == old(cache.users)
    ensures data == cache.disk[bno]
  {
    hide Ring.Linked, RecencyOk;
    ghost var bufs, us, pins := cache.buf[..], cache.users, cache.pins;
    NobodyLocks(bufs, cache.disk, us, pins);
    assert BufOk(bufs[0], cache.disk, us[0], pins[0]);
    assert Spare(bufs, 0);
    var r := cache.BreadFree(bno, pid);
    ViewCached(cache.buf[..], cache.disk, r.value);
    data := cache.buf[r.value].data;
    cache.Brelse(r.value, pid);
    assert cache.users == us;
    PinsKept(bufs, cache.buf[..], pins, []);
  }

  /** The copying loop of `read_head`. */
  method ReadHead(hb: Block, block: array<Word>) returns (n: nat)
    requires HeadCount(hb) <= LOGSIZE == block.Length
    modifies block
    ensures n <= LOGSIZE && block[..n] == HeadList(hb)
  {
    n := ReadWord(hb, 0);
    var i := 0;
    while i < n
      invariant 0 <= i <= n && forall j | 0 <= j < i :: block[j] == ReadWord(hb, 1 + j)
    {
      block[i] := ReadWord(hb, 1 + i);
      i := i + 1;
    }
  }

  /** The plan that `recover_from_log` follows on a clean cache. */
  lemma RecoverPlan(g: Geometry, d: Disk, t0: seq<Write>) returns (p: Plan)
    requires GoodDisk(g, d)
    ensures InRange(d, RecoverWrites(g, d))
    ensures PlanOk(p) && p.ws == RecoverWrites(g, d)
    ensures p.disks[0] == d && p.mems == p.disks && p.traces[0] == t0
    ensures p.disks[|p.ws|] == Recovered(g, d) && p.traces[|p.ws|] == t0 + p.ws
    ensures |p.ws| == |Listed(g, d)| + 1
    ensures InstallsAll(p, 0, g, Listed(g, d)) && PutsHead(p, g, [], |Listed(g, d)|) && InLog(g, g.start)
  {
    RecoverInRange(g, d);
    var ws, list := RecoverWrites(g, d), Listed(g, d);
    p := MakePlan(d, d, t0, ws);
    forall i | 0 <= i < |list|
      ensures Installs(p, 0, g, list, i)
    {
      assert MemIs(p, d, i) && InLog(g, g.start + 1 + i);
      Untouched(d, ws, 0, i, g.start + 1 + i);
    }
    assert MemIs(p, d, |list|) && InLog(g, g.start);
    Untouched(d, ws, 0, |list|, g.start);
  }

  /** `recover_from_log` past `read_head`, on a clean cache. */
  method Reinstall(cache: Cache, g: Geometry, list: seq<Word>, pid: nat)
    requires cache.Valid() && Ours(cache, g, [], pid) && NobodyUses(cache.users)
    requires GoodDisk(g, cache.disk) && list == Listed(g, cache.disk) && cache.Latest() == cache.disk
    modifies cache, cache.buf, cache.next, cache.prev
    ensures cache.Valid() && Ours(cache, g, [], pid) && cache.users == old(cache.users) && cache.Latest() == cache.disk
    ensures cache.disk == Recovered(g, old(cache.disk))
    ensures cache.trace == old(cache.trace) + RecoverWrites(g, old(cache.disk))
  {
    hide Ring.Linked, RecencyOk, BufOk, AllUndisturbed, View, SomeIdle;
    ghost var p := RecoverPlan(g, cache.disk, cache.trace);
    ReinstallTrans(cache, g, list, p, pid);
    IdleUnused(cache.buf[..], cache.users, cache.pins, []);
    assert Step(p, |list|);
    var ok := WriteHead(cache, g, [], [], pid);
  }

  /** `commit` of a non-empty header. */
  method CommitBlocks(cache: Cache, g: Geometry, list: seq<Word>, visits: Schedule, pid: nat)
    returns (ok: bool, ghost when: seq<Moment>)
    requires 0 < |list| && NoRepeats(list) && cache.Valid() && Ours(cache, g, list, pid)
    requires GoodList(g, |cache.disk|, list)
    requires GoodDisk(g, cache.disk) && Listed(g, cache.disk) == [] && LogSettled(g, cache.disk, cache.Latest())
    modifies cache, cache.buf, cache.next, cache.prev
    ensures cache.Valid()
    ensures ok ==>
              && |when| == |CommitProgram(g, old(cache.disk), list, old(cache.Latest()))| && AllEnough(when)
              && Ours(cache, g, [], pid) && Settled(g, list, cache.disk, old(cache.Latest()), cache.Latest())
              && Wrote(cache, g, old(cache.disk), list, old(cache.Latest()), old(cache.trace), |when|)
    ensures !ok ==>
              && 0 < |when| <= |CommitProgram(g, old(cache.disk), list, old(cache.Latest()))|
              && AllEnough(when[..|when| - 1]) && !Enough(when[|when| - 1])
              && when[|when| - 1] == Moment(cache.users, cache.pins)
              && Wrote(cache, g, old(cache.disk), list, old(cache.Latest()), old(cache.trace), |when| - 1)
  {
    hide Ring.Linked, RecencyOk, BufsOk, PinsOk, AllUndisturbed, SomeIdle, AllEnough, View;
    ghost var mem := cache.Latest();
    ghost var p := CommitPlan(g, cache.disk, list, mem, cache.trace);
    NoFade(cache.disk, mem, list);
    ok, when := RunCommit(cache, g, list, visits, p, |p.ws| - 1, |p.ws|, pid);
    if ok {
      EndSettled(g, old(cache.disk), list, mem, p, cache.Latest());
    }
  }

  lemma EndSettled(g: Geometry, d: Disk, list: seq<Word>, mem: Disk, p: Plan, mem': Disk)
    requires Ends(g, d, list, mem, p) && Fades(p.disks[|p.ws|], p.mems[|p.ws|], mem', [])
    ensures Settled(g, list, p.disks[|p.ws|], mem, mem')
  {
  }
}
