/** The log code takes the steps of the system that `GroupCommit` proves safe. */
module LogRefines {
  import opened Basics
  import opened Words
  import opened LogDisk
  import opened Ring
  import opened Bcache
  import opened Log
  import opened GC = GroupCommit
  import Reservation

  /** The log and its cache are in state `s`, between calls. */
  ghost predicate Stands(lg: Logger, s: GC.State)
    reads lg, lg.block, lg.cache, lg.cache.buf
  {
    && lg.n <= lg.block.Length && s.mode == GC.Running && !lg.committing && lg.outstanding == |s.ops|
    && lg.cache.disk == s.disk && lg.cache.Latest() == s.mem && lg.List() == s.lh
    && PinsOk(lg.cache.buf[..], lg.cache.pins, s.lh)
    && forall b | b in s.held :: InUse(lg.cache.buf[..], lg.cache.users, lg.cache.pins, b)
  }

  /** `ss` goes from `s` by the events `es`. */
  predicate Path(g: Geometry, s: GC.State, ss: seq<GC.State>, es: seq<GC.Event>) {
    |ss| == |es| + 1 && ss[0] == s && forall i | 0 <= i < |es| :: Next(g, ss[i], es[i], ss[i + 1])
  }

  /** `recover_from_log` takes every step of the recovery. */
  method Recover(lg: Logger, ghost s: GC.State, pid: nat) returns (ghost ss: seq<GC.State>, ghost es: seq<GC.Event>)
    requires lg.Valid() && Ours(lg.cache, lg.g, [], pid) && NobodyUses(lg.cache.users)
    requires lg.cache.Latest() == lg.cache.disk
    requires lg.outstanding == 0 && !lg.committing && Boot(lg.g, lg.cache.disk, s)
    modifies lg`n, lg.block, lg.cache, lg.cache.buf, lg.cache.next, lg.cache.prev
    ensures lg.Valid() && Path(lg.g, s, ss, es) && Stands(lg, ss[|es|])
  {
    hide Ring.Linked, RecencyOk, BufsOk, PinsOk, AllUndisturbed, View, GoodList, NoRepeats;
    RecoverInRange(lg.g, lg.cache.disk);
    ss, es := RecoverWalk(lg.g, s);
    lg.RecoverFromLog(pid);
  }

  lemma RecoverWalk(g: Geometry, s: GC.State) returns (ss: seq<GC.State>, es: seq<GC.Event>)
    requires Boot(g, s.disk, s) && InRange(s.disk, RecoverWrites(g, s.disk))
    ensures Path(g, s, ss, es)
    ensures ss[|es|] == s.(mode := Running, disk := Recovered(g, s.disk), mem := Recovered(g, s.disk))
  {
    hide RecoverWrites, GoodDisk, Apply;
    var d, ws := s.disk, RecoverWrites(g, s.disk);
    var n := |ws|;
    ss := seq(n + 1, (k: nat) requires k <= n => s.(disk := After(d, ws, k), mode := Recovering(k)))
          + [s.(mode := Running, disk := After(d, ws, n), mem := After(d, ws, n))];
    es := seq(n, (k: nat) => RecoverStep) + [RecoverDone];
  }

  /** `begin_op`: an operation begins exactly when the system lets one begin, and then the log has room
      for all that the operations outstanding may still log, the new one with its whole quota. */
  method Begin(lg: Logger, ghost init: Disk, ghost s: GC.State, ghost o: nat) returns (begun: bool, ghost s': GC.State)
    requires lg.Valid() && Stands(lg, s) && GC.Inv(lg.g, init, s) && o !in s.used
    modifies lg`outstanding
    ensures lg.Valid() && Stands(lg, s')
    ensures begun ==> Next(lg.g, s, GC.Begin(o), s') && o in s'.ops && s'.ops[o] == {}
                      && |lg.List()| + Reservation.Unspent(s'.ops) <= LOGSIZE
    ensures !begun ==> s' == s && forall t :: !Next(lg.g, s, GC.Begin(o), t)
  {
    hide Ring.Linked, RecencyOk, BufsOk, PinsOk, View, InUse;
    assert o !in s.ops;
    hide GC.Inv;
    begun := lg.TryBeginOp();
    s' := s;
    if begun {
      s' := s.(ops := s.ops[o := {}], used := s.used + {o});
      assert Next(lg.g, s, GC.Begin(o), s');
      hide Next;
      Reservation.RoomLeft(s.ops, o);
    } else {
      NoneBegins(lg.g, s, o);
      hide Next;
    }
  }

  lemma NoneBegins(g: Geometry, s: GC.State, o: nat)
    requires !CanBegin(s)
    ensures forall t :: !Next(g, s, GC.Begin(o), t)
  {
  }

  /** Whatever recycling did to the latest contents is a step of the system. */
  lemma FadedIsRecycle(g: Geometry, init: Disk, s: GC.State, bufs: seq<Buf>, us: seq<set<nat>>, pins: seq<nat>,
                       mem: Disk)
    returns (bs: set<nat>, s': GC.State)
    requires GC.Inv(g, init, s) && s.mode == GC.Running && PinsOk(bufs, pins, s.lh) && |us| == NBUF
    requires (forall b | b in s.held :: InUse(bufs, us, pins, b)) && Faded(bufs, us, pins, s.disk, s.mem, mem)
    ensures RecycleStep(s, bs, s') && s' == s.(mem := mem, dirty := s.dirty - bs)
  {
    bs := set b | b in s.dirty && b < |mem| && mem[b] != s.mem[b];
    s' := s.(mem := mem, dirty := s.dirty - bs);
    forall b | b in bs
      ensures b !in s.lh
    {
      if b in s.lh {
        PinnedName(bufs, pins, s.lh, b);
        assert InUse(bufs, us, pins, b);
      }
    }
    forall b: nat | b < |mem| && mem[b] != s.mem[b]
      ensures b in bs && mem[b] == s.disk[b]
    {
      OnlyDirtyDiffers(g, init, s, b);
      if b in s.lh {
        PinnedName(bufs, pins, s.lh, b);
        assert InUse(bufs, us, pins, b);
      }
    }
    assert Forget(s.mem, s.disk, bs) == mem;
  }

  /** A block that is not listed and not changed is as the disk has it. */
  lemma OnlyDirtyDiffers(g: Geometry, init: Disk, s: GC.State, b: nat)
    requires GC.Inv(g, init, s) && s.mode == GC.Running && b < |s.disk|
    ensures |s.mem| == |s.disk| && (s.mem[b] != s.disk[b] ==> b in s.dirty || b in s.lh)
  {
    if !InLog(g, b) && b !in s.dirty && b !in s.lh {
      ReplayUnwritten(Home(g, s.disk), s.group, b);
    }
  }

  /** `bread` by an operation, of a home block whose lock is free: whatever is recycled for it, and then the
      lock. None is the panic "no buffers". */
  method Lock(lg: Logger, ghost init: Disk, ghost s: GC.State, ghost o: nat, bno: nat, pid: nat)
    returns (r: Option<nat>, ghost bs: set<nat>, ghost s1: GC.State, ghost s': GC.State)
    requires lg.Valid() && Stands(lg, s) && GC.Inv(lg.g, init, s) && o in s.ops && bno !in s.held
    requires bno < |lg.cache.disk| && bno < 0x1_0000_0000 && !InLog(lg.g, bno) && Unlocked(lg.cache.buf[..], bno)
    requires forall b | 0 <= b < NBUF && Names(lg.cache.buf[b], bno) :: pid !in lg.cache.users[b]
    modifies lg.cache`users, lg.cache.buf
    ensures lg.Valid() && (r.None? <==> Unavailable(old(lg.cache.buf[..]), bno))
    ensures r.None? ==> Stands(lg, s)
    ensures r.Some? ==>
              && Next(lg.g, s, GC.Recycle(bs), s1) && Next(lg.g, s1, GC.Lock(o, bno), s') && Stands(lg, s')
              && lg.cache.Holds(r.value, bno, pid) && GC.Holds(s', o, bno)
  {
    hide Ring.Linked, RecencyOk, View, Faded, PinsOk, GC.Inv, RecycleStep, InUse;
    ghost var bufs, us, pins := lg.cache.buf[..], lg.cache.users, lg.cache.pins;
    r := lg.cache.BreadFree(bno, pid);
    bs, s1 := FadedIsRecycle(lg.g, init, s, bufs, us, pins, lg.cache.Latest());
    s' := s1.(held := s1.held[bno := o]);
    if r.Some? {
      TookKeeps(bufs, lg.cache.buf[..], us, lg.cache.users, pins, s.lh, s.held, r.value, bno, pid);
    }
  }

  /** `bread` outside any operation, as `fileread` does: nothing but what is recycled for it. */
  method Read(lg: Logger, ghost init: Disk, ghost s: GC.State, bno: nat, pid: nat)
    returns (r: Option<nat>, ghost bs: set<nat>, ghost s': GC.State)
    requires lg.Valid() && Stands(lg, s) && GC.Inv(lg.g, init, s)
    requires bno < |lg.cache.disk| && Unlocked(lg.cache.buf[..], bno)
    requires forall b | 0 <= b < NBUF && Names(lg.cache.buf[b], bno) :: pid !in lg.cache.users[b]
    modifies lg.cache`users, lg.cache.buf
    ensures lg.Valid() && (r.None? <==> Unavailable(old(lg.cache.buf[..]), bno))
    ensures Next(lg.g, s, GC.Recycle(bs), s') && Stands(lg, s') && (r.None? ==> s' == s)
    ensures r.Some? ==> lg.cache.Holds(r.value, bno, pid) && lg.cache.buf[r.value].data == s'.mem[bno]
  {
    hide Ring.Linked, RecencyOk, Faded, PinsOk, GC.Inv, RecycleStep, InUse, GoodList, NoRepeats, Unavailable;
    ghost var bufs, us, pins := lg.cache.buf[..], lg.cache.users, lg.cache.pins;
    r := lg.cache.BreadFree(bno, pid);
    if r.Some? {
      ViewCached(lg.cache.buf[..], lg.cache.disk, r.value);
    }
    hide View;
    bs, s' := FadedIsRecycle(lg.g, init, s, bufs, us, pins, lg.cache.Latest());
    if r.Some? {
      TookKeeps(bufs, lg.cache.buf[..], us, lg.cache.users, pins, s.lh, s.held, r.value, bno, pid);
    } else {
      bs, s' := {}, s;
      NoRecycle(s);
    }
  }

  lemma NoRecycle(s: GC.State)
    requires |s.mem| == |s.disk|
    ensures RecycleStep(s, {}, s)
  {
    assert Forget(s.mem, s.disk, {}) == s.mem && s.dirty - {} == s.dirty;
  }

  lemma TookKeeps(bufs: seq<Buf>, bufs': seq<Buf>, us: seq<set<nat>>, us': seq<set<nat>>, pins: seq<nat>, lh: seq<Word>,
                  held: map<nat, nat>, b: nat, bno: nat, pid: nat)
    requires PinsOk(bufs, pins, lh) && Unique(bufs') && |bufs'| == |us| == NBUF && b < NBUF
    requires bufs' == bufs[b := bufs'[b]] && us' == us[b := us[b] + {pid}] && Names(bufs'[b], bno)
    requires Names(bufs[b], bno) || (us[b] == {} && pins[b] == 0)
    requires forall x | x in held :: InUse(bufs, us, pins, x)
    ensures PinsOk(bufs', pins, lh) && InUse(bufs', us', pins, bno)
    ensures forall x | x in held :: InUse(bufs', us', pins, x)
  {
    PinsKept(bufs, bufs', pins, lh);
    assert pid in us'[b];
    forall x | x in held
      ensures InUse(bufs', us', pins, x)
    {
      var c :| 0 <= c < NBUF && Names(bufs[c], x) && (us[c] != {} || pins[c] > 0);
      assert us[c] <= us'[c];
      assert Names(bufs'[c], x) && (us'[c] != {} || pins[c] > 0);
    }
  }

  /** The lock holder changes the block. */
  method Modify(lg: Logger, ghost s: GC.State, ghost o: nat, b: nat, data: Block, pid: nat) returns (ghost s': GC.State)
    requires lg.Valid() && Stands(lg, s) && b < NBUF && lg.cache.buf[b].holder == Some(pid) && lg.cache.buf[b].valid
    requires lg.cache.buf[b].dev == ROOTDEV && GC.Holds(s, o, lg.cache.buf[b].blockno)
    modifies lg.cache.buf
    ensures lg.Valid() && Stands(lg, s') && Next(lg.g, s, GC.Modify(o, old(lg.cache.buf[b]).blockno, data), s')
  {
    hide Ring.Linked, RecencyOk, View;
    ghost var bufs, bno := lg.cache.buf[..], lg.cache.buf[b].blockno;
    s' := s.(mem := s.mem[bno := data], dirty := s.dirty + {bno});
    lg.cache.Modify(b, pid, data);
    SameUse(bufs, lg.cache.buf[..], lg.cache.users, lg.cache.users, lg.cache.pins, s.lh, s.held);
  }

  /** The buffers name the same blocks, and have the same users where it matters. */
  lemma SameUse(bufs: seq<Buf>, bufs': seq<Buf>, us: seq<set<nat>>, us': seq<set<nat>>, pins: seq<nat>, lh: seq<Word>,
                held: map<nat, nat>)
    requires PinsOk(bufs, pins, lh) && |bufs'| == |us| == |us'| == NBUF
    requires forall b | 0 <= b < NBUF :: bufs'[b].dev == bufs[b].dev && bufs'[b].blockno == bufs[b].blockno
    requires forall b, x | 0 <= b < NBUF && x in held && Names(bufs[b], x) :: us'[b] == us[b]
    requires forall x | x in held :: InUse(bufs, us, pins, x)
    ensures PinsOk(bufs', pins, lh) && forall x | x in held :: InUse(bufs', us', pins, x)
  {
    forall i | 0 <= i < |lh|
      ensures Named(bufs', lh[i])
    {
      var b := WhichBuf(bufs, lh[i]);
      assert Names(bufs'[b], lh[i]);
    }
    forall x | x in held
      ensures InUse(bufs', us', pins, x)
    {
      var c :| 0 <= c < NBUF && Names(bufs[c], x) && (us[c] != {} || pins[c] > 0);
      assert Names(bufs'[c], x) && (us'[c] != {} || pins[c] > 0);
    }
  }

  /** `brelse` by an operation, whether the block has been logged or not. */
  method Unlock(lg: Logger, ghost s: GC.State, ghost o: nat, b: nat, pid: nat) returns (ghost s': GC.State)
    requires lg.Valid() && Stands(lg, s) && b < NBUF && lg.cache.buf[b].holder == Some(pid)
    requires lg.cache.buf[b].dev == ROOTDEV && GC.Holds(s, o, lg.cache.buf[b].blockno)
    modifies lg.cache`users, lg.cache`ring, lg.cache`stamp, lg.cache`clock, lg.cache.buf, lg.cache.next, lg.cache.prev
    ensures lg.Valid() && Stands(lg, s') && Next(lg.g, s, GC.Unlock(o, old(lg.cache.buf[b]).blockno), s')
  {
    hide Ring.Linked, RecencyOk, View;
    ghost var bufs, us, bno := lg.cache.buf[..], lg.cache.users, lg.cache.buf[b].blockno;
    s' := s.(held := s.held - {bno});
    lg.cache.Brelse(b, pid);
    SameUse(bufs, lg.cache.buf[..], us, lg.cache.users, lg.cache.pins, s.lh, s'.held);
  }

  /** `log_write` by an operation that holds the block: a step, or the panic. */
  method LogWrite(lg: Logger, ghost s: GC.State, ghost o: nat, b: nat)
    returns (ok: bool, ghost s': GC.State)
    requires lg.Valid() && Stands(lg, s) && b < NBUF && lg.cache.buf[b].valid && !InLog(lg.g, lg.cache.buf[b].blockno)
    requires var bno := lg.cache.buf[b].blockno; bno < 0x1_0000_0000 && GC.Holds(s, o, bno)
    modifies lg`n, lg.block, lg.cache`pins, lg.cache.buf
    ensures ok <==> !TooBig(lg.g, s)
    ensures ok ==> lg.Valid() && Stands(lg, s') && Next(lg.g, s, GC.LogWrite(o, old(lg.cache.buf[b]).blockno), s')
  {
    hide Ring.Linked, RecencyOk, View, GoodList, NoRepeats, BufsOk, PinsOk, InUse, Repinned, Absorb;
    ghost var bufs, pins, bno := lg.cache.buf[..], lg.cache.pins, lg.cache.buf[b].blockno;
    assert |s.ops| >= 1 by {
      assert o in s.ops.Keys && |s.ops.Keys| >= 1;
    }
    ok := lg.LogWrite(b);
    s' := s;
    if ok {
      s' := s.(lh := Absorb(s.lh, bno), ops := s.ops[o := s.ops[o] + {bno}],
               group := s.group + [Logged(o, bno, s.mem[bno])], dirty := s.dirty - {bno});
      assert s'.ops.Keys == s.ops.Keys;
      MorePins(bufs, lg.cache.buf[..], lg.cache.users, pins, lg.cache.pins, s.held);
    }
  }

  lemma MorePins(bufs: seq<Buf>, bufs': seq<Buf>, us: seq<set<nat>>, pins: seq<nat>, pins': seq<nat>,
                 held: map<nat, nat>)
    requires Repinned(bufs, pins, bufs', pins') && forall x | x in held :: InUse(bufs, us, pins, x)
    ensures forall x | x in held :: InUse(bufs', us, pins', x)
  {
    forall x | x in held
      ensures InUse(bufs', us, pins', x)
    {
      var c :| 0 <= c < |bufs| && Names(bufs[c], x) && (us[c] != {} || pins[c] > 0);
      assert Names(bufs'[c], x) && (us[c] != {} || pins'[c] > 0);
    }
  }

  /** The state when a commit that began in `s` has issued `k` writes. */
  ghost function During(g: Geometry, s: GC.State, k: nat): GC.State
    requires GoodDisk(g, s.base) && GoodList(g, |s.mem|, s.lh) && |s.mem| == |s.base| && k <= CommitLength(s.lh)
    requires InRange(s.base, Program(g, s.base, s.lh, s.mem))
  {
    var ws := Program(g, s.base, s.lh, s.mem);
    s.(disk := After(s.base, ws, k), mem := After(s.mem, ws, k),
       mode := Committing(k), durable := if s.lh == [] || k > |s.lh| then |s.commits| else s.durable)
  }

  /** The writes of a commit leave its listed blocks as they were. */
  lemma {:induction false} ListedStay(g: Geometry, hs: Heads, list: seq<Word>, mem: Disk, ws: seq<Write>, k: nat,
                                      i: nat)
    requires CommitShape(g, hs, list, mem, ws) && InRange(mem, ws) && InLog(g, g.start) && k <= |ws| && i < |list|
    ensures After(mem, ws, k)[list[i]] == mem[list[i]]
  {
    if k > 0 {
      ListedStay(g, hs, list, mem, ws, k - 1, i);
      var n := |list|;
      if k - 1 < n {
        assert ws[k - 1] == Write(g.start + k, mem[list[k - 1]]);
      } else if n < k - 1 <= 2 * n {
        assert ws[k - 1] == Write(list[k - n - 2], mem[list[k - n - 2]]);
      }
    }
  }

  lemma SameWrite(g: Geometry, hs: Heads, list: seq<Word>, mem: Disk, mem': Disk, k: nat)
    requires GoodList(g, |mem|, list) && |mem'| == |mem| && k < 2 * |list| + 2
    requires forall i: nat | i < |list| :: mem'[list[i]] == mem[list[i]]
    ensures CommitWrite(g, hs, list, mem', k) == CommitWrite(g, hs, list, mem, k)
  {
  }

  /** The next write is the one the program has there. */
  lemma NextWrite(g: Geometry, d: Disk, list: seq<Word>, mem: Disk, k: nat)
    requires GoodDisk(g, d) && Listed(g, d) == [] && GoodList(g, |mem|, list) && |mem| == |d| && list != []
    requires k < 2 * |list| + 2
    ensures var ws := CommitProgram(g, d, list, mem);
            && InRange(d, ws) && InRange(mem, ws)
            && CommitWrite(g, CommitHeads(d[g.start], list), list, After(mem, ws, k), k) == ws[k]
  {
    var hs, ws := CommitHeads(d[g.start], list), CommitProgram(g, d, list, mem);
    CommitHeadsOk(d[g.start], list);
    CommitHasShape(g, d, hs, list, mem);
    assert InLog(g, g.start);
    forall i: nat | i < |list|
      ensures After(mem, ws, k)[list[i]] == mem[list[i]]
    {
      ListedStay(g, hs, list, mem, ws, k, i);
    }
    SameWrite(g, hs, list, mem, After(mem, ws, k), k);
  }

  lemma DuringStep(g: Geometry, s: GC.State, k: nat)
    requires CanRun(g, s) && k < CommitLength(s.lh)
    ensures CommitWriteStep(g, During(g, s, k), During(g, s, k + 1))
  {
    NextWrite(g, s.base, s.lh, s.mem, k);
    hide CommitWrite, CommitProgram, GoodDisk, Listed, CommitHeads;
  }

  /** The states of the `end_op` of the last operation outstanding, which leads from `s` to `s1`, through
      the writes of the commit, and to its end. */
  ghost function EndState(g: Geometry, s: GC.State, s1: GC.State, i: nat): GC.State
    requires CanRun(g, s1) && i < CommitLength(s1.lh) + 3
  {
    var n := CommitLength(s1.lh);
    if i == 0 then s else if i <= n + 1 then During(g, s1, i - 1) else Ended(During(g, s1, n))
  }

  ghost predicate CanRun(g: Geometry, s: GC.State) {
    && GoodDisk(g, s.base) && Listed(g, s.base) == [] && GoodList(g, |s.mem|, s.lh) && |s.mem| == |s.base|
    && InRange(s.base, Program(g, s.base, s.lh, s.mem))
  }

  function Ended(s: GC.State): GC.State {
    s.(mode := Running, lh := [], group := [], ended := {}, dirty := set b | b in s.dirty && b !in s.lh)
  }

  function EndEvent(o: nat, n: nat, i: nat): GC.Event {
    if i == 0 then GC.End(o) else if i <= n then CommitStep else GC.CommitDone
  }

  lemma DuringStart(g: Geometry, s: GC.State, o: nat, s1: GC.State)
    requires EndStep(s, o, s1) && s.ops.Keys == {o} && CanRun(g, s1)
    ensures During(g, s1, 0) == s1
  {
  }

  lemma EndFirst(g: Geometry, s: GC.State, o: nat, s1: GC.State)
    requires EndStep(s, o, s1) && s.ops.Keys == {o} && CanRun(g, s1)
    ensures Next(g, s, GC.End(o), During(g, s1, 0))
  {
    DuringStart(g, s, o, s1);
    hide During, EndStep, CanRun;
  }

  lemma EndMiddle(g: Geometry, s1: GC.State, k: nat)
    requires CanRun(g, s1) && k < CommitLength(s1.lh)
    ensures Next(g, During(g, s1, k), CommitStep, During(g, s1, k + 1))
  {
    DuringStep(g, s1, k);
    hide During, CommitWriteStep, CanRun;
  }

  lemma EndFinal(g: Geometry, s1: GC.State)
    requires CanRun(g, s1)
    ensures Next(g, During(g, s1, CommitLength(s1.lh)), GC.CommitDone, Ended(During(g, s1, CommitLength(s1.lh))))
  {
    DuringMode(g, s1, CommitLength(s1.lh));
    hide During, CanRun;
  }

  lemma EndPathAt(g: Geometry, s: GC.State, o: nat, s1: GC.State, i: nat)
    requires EndStep(s, o, s1) && s.ops.Keys == {o} && CanRun(g, s1) && i < CommitLength(s1.lh) + 2
    ensures Next(g, EndState(g, s, s1, i), EndEvent(o, CommitLength(s1.lh), i), EndState(g, s, s1, i + 1))
  {
    hide Next, During, EndStep, CanRun, CommitLength, Ended;
    var n := CommitLength(s1.lh);
    if i == 0 {
      EndFirst(g, s, o, s1);
    } else if i <= n {
      EndMiddle(g, s1, i - 1);
    } else {
      EndFinal(g, s1);
    }
  }

  lemma DuringMode(g: Geometry, s: GC.State, k: nat)
    requires CanRun(g, s) && k <= CommitLength(s.lh)
    ensures During(g, s, k).mode == Committing(k) && During(g, s, k).lh == s.lh
  {
  }

  /** The first `i` steps of the `end_op` of the last operation outstanding. */
  lemma EndWalk(g: Geometry, s: GC.State, o: nat, s1: GC.State, m: nat) returns (ss: seq<GC.State>, es: seq<GC.Event>)
    requires EndStep(s, o, s1) && s.ops.Keys == {o} && CanRun(g, s1) && m <= CommitLength(s1.lh) + 2
    ensures Path(g, s, ss, es) && |es| == m && ss[m] == EndState(g, s, s1, m)
    ensures forall i | 0 <= i < m :: es[i] == EndEvent(o, CommitLength(s1.lh), i)
  {
    hide EndStep, Next, GoodDisk, GoodList, CommitProgram;
    ss := seq(m + 1, (i: nat) requires i <= m => EndState(g, s, s1, i));
    es := seq(m, (i: nat) => EndEvent(o, CommitLength(s1.lh), i));
    forall i: nat | i < |es|
      ensures Next(g, ss[i], es[i], ss[i + 1])
    {
      EndPathAt(g, s, o, s1, i);
    }
  }

  lemma {:induction false} PathInv(g: Geometry, init: Disk, s: GC.State, ss: seq<GC.State>, es: seq<GC.Event>, i: nat)
    requires GC.Inv(g, init, s) && Path(g, s, ss, es) && i <= |es|
    ensures GC.Inv(g, init, ss[i])
  {
    hide GC.Inv, Next;
    if i > 0 {
      PathInv(g, init, s, ss, es, i - 1);
      GC.NextKeeps(g, init, ss[i - 1], es[i - 1], ss[i]);
    }
  }

  /** What the last `end_op` starts from. */
  lemma EndReady(g: Geometry, init: Disk, s: GC.State, o: nat)
    requires GC.Inv(g, init, s) && s.mode == GC.Running && s.ops.Keys == {o}
    ensures GoodDisk(g, s.disk) && Listed(g, s.disk) == [] && LogSettled(g, s.disk, s.mem)
    ensures CanRun(g, EndOf(s, o))
  {
    CommitHeadsOk(s.disk[g.start], s.lh);
    CommitInRange(g, s.disk, CommitHeads(s.disk[g.start], s.lh), s.lh, s.mem);
  }

  /** `end_op` of the last operation outstanding, whatever others do meanwhile: it ends, every step of the
      commit is taken before the call returns, and so is whatever was recycled. The panic for want of
      buffers stops it after the writes of the rounds before. */
  method EndLast(lg: Logger, visits: Schedule, ghost init: Disk, ghost s: GC.State, ghost o: nat, pid: nat)
    returns (ok: bool, ghost when: seq<Moment>, ghost ss: seq<GC.State>, ghost es: seq<GC.Event>)
    requires lg.Valid() && Stands(lg, s) && GC.Inv(lg.g, init, s) && s.ops.Keys == {o}
    requires forall b | b in s.held :: s.held[b] != o
    requires Ours(lg.cache, lg.g, lg.List(), pid)
    modifies lg`n, lg`outstanding, lg`committing, lg.cache, lg.cache.buf, lg.cache.next, lg.cache.prev
    ensures Path(lg.g, s, ss, es) && 1 <= |es| && es[0] == GC.End(o)
    ensures ok ==> lg.Valid() && Stands(lg, ss[|es|]) && AllEnough(when) && |es| == |when| + 3
    ensures !ok ==>
              && 0 < |when| && AllEnough(when[..|when| - 1]) && !Enough(when[|when| - 1]) && |es| == |when|
              && when[|when| - 1] == Moment(lg.cache.users, lg.cache.pins)
              && ss[|es|].mode == Committing(|when| - 1) && ss[|es|].disk == lg.cache.disk
  {
    hide Ring.Linked, RecencyOk, BufsOk, PinsOk, AllUndisturbed, Enough, View, GC.Inv, GoodDisk, GoodList,
        CommitProgram;
    hide Next, Listed, NoRepeats, Program, Settled, AllEnough, InUse, Path, InRange, LogSettled, CanRun, Committed;
    OpsCount(s, o);
    NothingHeld(lg.g, init, s, o);
    EndReady(lg.g, init, s, o);
    ghost var g, mem := lg.g, s.mem;
    ok, when := lg.EndOp(visits, pid);
    if ok {
      DoneFacts(lg, g, s.disk, s.lh, mem, old(lg.cache.trace), when, pid);
      ss, es := DonePath(g, init, s, o, lg.cache.disk, lg.cache.Latest());
    } else {
      StopFacts(lg, g, s.disk, s.lh, mem, old(lg.cache.trace), when, pid);
      ss, es := StopPath(g, s, o, |when| - 1);
    }
  }

  lemma DoneFacts(lg: Logger, g: Geometry, d: Disk, list: seq<Word>, mem: Disk, t0: seq<Write>, when: seq<Moment>,
                  pid: nat)
    requires Committed(g, d, list, mem, t0, lg, true, when, pid)
    ensures g.start < |d| && GoodList(g, |mem|, list) && InRange(d, Program(g, d, list, mem))
    ensures |when| == |Program(g, d, list, mem)| && AllEnough(when) && lg.n == 0
    ensures lg.cache.disk == After(d, Program(g, d, list, mem), |when|)
    ensures Settled(g, list, lg.cache.disk, mem, lg.cache.Latest()) && PinsOk(lg.cache.buf[..], lg.cache.pins, [])
  {
  }

  lemma StopFacts(lg: Logger, g: Geometry, d: Disk, list: seq<Word>, mem: Disk, t0: seq<Write>, when: seq<Moment>,
                  pid: nat)
    requires Committed(g, d, list, mem, t0, lg, false, when, pid)
    ensures g.start < |d| && GoodList(g, |mem|, list) && InRange(d, Program(g, d, list, mem))
    ensures 0 < |when| <= |Program(g, d, list, mem)| && AllEnough(when[..|when| - 1]) && !Enough(when[|when| - 1])
    ensures when[|when| - 1] == Moment(lg.cache.users, lg.cache.pins)
    ensures lg.cache.disk == After(d, Program(g, d, list, mem), |when| - 1)
  {
  }

  lemma DonePath(g: Geometry, init: Disk, s: GC.State, o: nat, disk: Disk, mem: Disk)
    returns (ss: seq<GC.State>, es: seq<GC.Event>)
    requires GC.Inv(g, init, s) && s.mode == GC.Running && s.ops.Keys == {o} && s.held == map[]
    requires CanRun(g, EndOf(s, o)) && |s.mem| == |s.disk| && Settled(g, s.lh, disk, s.mem, mem)
    requires var ws := Program(g, s.disk, s.lh, s.mem); disk == After(s.disk, ws, |ws|)
    ensures Path(g, s, ss, es) && |es| == |Program(g, s.disk, s.lh, s.mem)| + 3 && es[0] == GC.End(o)
    ensures var t := ss[|es|];
            && t.mode == Running && t.disk == disk && t.mem == mem && t.lh == [] && t.ops == map[] && t.held == map[]
  {
    var s1, n := EndOf(s, o), CommitLength(s.lh);
    ProgramLength(g, s.disk, s.lh, s.mem);
    EndedIs(g, s, o, s1, disk, mem);
    hide GC.Inv, GoodDisk, GoodList, CommitProgram, Program, Settled, Next, CanRun, EndState;
    ss, es := EndWalk(g, s, o, s1, n + 2);
    PathInv(g, init, s, ss, es, n + 2);
    var bs, t := SettledIsRecycle(g, init, ss[n + 2], s.lh, s.mem, mem);
    ss, es := PathMore(g, s, ss, es, GC.Recycle(bs), t);
  }

  lemma StopPath(g: Geometry, s: GC.State, o: nat, k: nat) returns (ss: seq<GC.State>, es: seq<GC.Event>)
    requires s.mode == GC.Running && s.ops.Keys == {o} && s.held == map[] && CanRun(g, EndOf(s, o))
    requires k < |Program(g, s.disk, s.lh, s.mem)|
    ensures Path(g, s, ss, es) && |es| == k + 1 && es[0] == GC.End(o)
    ensures ss[|es|].mode == Committing(k) && ss[|es|].disk == After(s.disk, Program(g, s.disk, s.lh, s.mem), k)
  {
    var s1 := EndOf(s, o);
    ProgramLength(g, s.disk, s.lh, s.mem);
    ss, es := EndWalk(g, s, o, s1, k + 1);
  }

  lemma PathMore(g: Geometry, s: GC.State, ss: seq<GC.State>, es: seq<GC.Event>, e: GC.Event, t: GC.State)
    returns (ss': seq<GC.State>, es': seq<GC.Event>)
    requires Path(g, s, ss, es) && Next(g, ss[|es|], e, t)
    ensures Path(g, s, ss', es') && es' == es + [e] && ss'[|es'|] == t && (es != [] ==> es'[0] == es[0])
  {
    hide Next;
    ss', es' := ss + [t], es + [e];
  }

  lemma ProgramLength(g: Geometry, d: Disk, list: seq<Word>, mem: Disk)
    requires g.start < |d| && GoodList(g, |mem|, list)
    ensures |Program(g, d, list, mem)| == CommitLength(list)
  {
  }

  /** The state after the commit: the disk has its writes, and so has memory. */
  lemma EndedIs(g: Geometry, s: GC.State, o: nat, s1: GC.State, disk: Disk, mem: Disk)
    requires s1 == EndOf(s, o) && s.ops.Keys == {o} && CanRun(g, s1) && |s.mem| == |s.disk|
    requires var ws := Program(g, s.disk, s.lh, s.mem); disk == After(s.disk, ws, |ws|)
    ensures var t := EndState(g, s, s1, CommitLength(s.lh) + 2);
            && t.disk == disk && t.mode == Running && t.lh == [] && t.ops == map[] && t.held == s.held
            && |t.mem| == |s.mem|
            && forall b: nat | b < |disk| && b !in s.lh && !InLog(g, b) :: t.mem[b] == s.mem[b]
  {
    ProgramLength(g, s.disk, s.lh, s.mem);
    var ws := Program(g, s.disk, s.lh, s.mem);
    forall b: nat | b < |disk| && b !in s.lh && !InLog(g, b)
      ensures After(s.mem, ws, |ws|)[b] == s.mem[b]
    {
      forall i | 0 <= i < |ws|
        ensures ws[i].bno != b
      {
        var hs := CommitHeads(s.disk[g.start], s.lh);
        CommitHeadsOk(s.disk[g.start], s.lh);
        CommitHasShape(g, s.disk, hs, s.lh, s.mem);
        assert InLog(g, g.start);
        WriteWhere(g, hs, s.lh, s.mem, ws, i);
      }
      LogDisk.Untouched(s.mem, ws, 0, |ws|, b);
    }
  }

  lemma SettledIsRecycle(g: Geometry, init: Disk, t: GC.State, list: seq<Word>, mem: Disk, mem': Disk)
    returns (bs: set<nat>, t': GC.State)
    requires GC.Inv(g, init, t) && t.mode == GC.Running && t.lh == [] && t.held == map[]
    requires Settled(g, list, t.disk, mem, mem')
    requires |t.mem| == |mem| && forall b: nat | b < |mem| && b !in list && !InLog(g, b) :: t.mem[b] == mem[b]
    ensures Next(g, t, GC.Recycle(bs), t') && t' == t.(mem := mem', dirty := t.dirty - bs)
  {
    bs := set b | b in t.dirty && b < |mem'| && mem'[b] != t.mem[b];
    t' := t.(mem := mem', dirty := t.dirty - bs);
    forall b: nat | b < |mem'| && mem'[b] != t.mem[b]
      ensures b in bs && mem'[b] == t.disk[b]
    {
      OnlyDirtyDiffers(g, init, t, b);
    }
    assert Forget(t.mem, t.disk, bs) == mem';
  }

  /** `end_op` of any other operation. */
  method EndOther(lg: Logger, ghost init: Disk, ghost s: GC.State, ghost o: nat, pid: nat)
    returns (ok: bool, ghost s': GC.State)
    requires lg.Valid() && Stands(lg, s) && GC.Inv(lg.g, init, s) && o in s.ops && s.ops.Keys != {o}
    requires forall b | b in s.held :: s.held[b] != o
    modifies lg`n, lg`outstanding, lg`committing, lg.cache, lg.cache.buf, lg.cache.next, lg.cache.prev
    ensures ok && lg.Valid() && Next(lg.g, s, GC.End(o), s') && Stands(lg, s')
  {
    hide GC.Inv, GoodDisk, View, Ring.Linked, RecencyOk, BufsOk, PinsOk, AllUndisturbed, SomeIdle, GoodList,
        NoRepeats, CommitProgram, InUse;
    OpsCount(s, o);
    s' := EndOf(s, o);
    assert (s.ops - {o}).Keys == s.ops.Keys - {o};
    ghost var when;
    ok, when := lg.EndOp(_ => [], pid);
  }

  ghost function EndOf(s: GC.State, o: nat): GC.State {
    if s.ops.Keys == {o}
    then s.(ops := map[], ended := s.ended + {o}, mode := Committing(0), base := s.disk, snap := s.mem,
            commits := s.commits + [Group(s.group, s.ended + {o}, Strays(s))],
            durable := if s.lh == [] then |s.commits| + 1 else s.durable)
    else s.(ops := s.ops - {o}, ended := s.ended + {o})
  }

  lemma OpsCount(s: GC.State, o: nat)
    requires o in s.ops
    ensures |s.ops| >= 1 && (|s.ops| == 1 <==> s.ops.Keys == {o})
  {
    assert s.ops.Keys == {o} + (s.ops.Keys - {o});
    assert |s.ops.Keys| == |s.ops|;
  }

  lemma NothingHeld(g: Geometry, init: Disk, s: GC.State, o: nat)
    requires GC.Inv(g, init, s) && s.mode == GC.Running && s.ops.Keys == {o} && forall b | b in s.held :: s.held[b] != o
    ensures s.held == map[] && |s.mem| == |s.disk|
  {
    assert s.held.Keys == {};
  }
}
