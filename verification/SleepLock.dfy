/** Sleep locks: any number of processes calling `acquiresleep` and `releasesleep` on one lock. */
module SleepLock {
  import opened Basics
  import opened Monitor

  /** What the lock's spin lock guards: the fields `locked` and `pid`. */
  datatype Lock = Lock(locked: bool, pid: nat)

  /** The channel processes waiting for the lock sleep on. */
  const CHAN: nat := 0

  /** What a process sleeping on `chan` waits for. */
  predicate Cond(chan: nat, d: Lock) {
    chan == CHAN && !d.locked
  }

  /** Where a process is in its program. In `acquiresleep`: Test is the loop condition, Sleeping the
      call of `sleep`, Retry the way back to the spin lock, Took the way out. Inside holds the lock.
      In `releasesleep`: Clear, Wake, Scanning and Leave. */
  datatype Pc = Outside | Test | Sleeping | Retry | Took | Inside | Clear | Wake | Scanning | Leave

  datatype Prog = Prog(m: State<Lock>, pc: seq<Pc>)

  /** What the program of process `e.t` lets it do, and where that takes it. */
  predicate Step(s: Prog, e: Event<Lock>, to: Pc) {
    && |s.pc| == |s.m.mode| && e.t < |s.pc|
    && var at := s.pc[e.t];
       match e
       case Acquire(t) => (at == Outside && to == Test) || (at == Retry && to == Test) || (at == Inside && to == Clear)
       case Update(t, d, owed) =>
         || (at == Test && !s.m.d.locked && d == Lock(true, t) && owed == s.m.owed && to == Took)
         || (at == Clear && d == Lock(false, 0) && owed == s.m.owed + {CHAN} && to == Wake)
       case WakeStart(t, chan) => at == Wake && chan == CHAN && to == Scanning
       case WakeStep(t) => at == Scanning && to == Scanning
       case WakeEnd(t) => at == Scanning && to == Leave
       case Release(t) => (at == Took && to == Inside) || (at == Leave && to == Outside)
       case SleepStart(t, chan) => at == Test && s.m.d.locked && chan == CHAN && to == Sleeping
       case SleepRelease(t) => at == Sleeping && to == Sleeping
       case SleepMark(t) => at == Sleeping && to == Sleeping
       case SleepSwitch(t) => at == Sleeping && to == Sleeping
       case Kill(t) => to == at
       case Resume(t) => at == Sleeping && to == Retry
  }

  predicate Next(s: Prog, e: Event<Lock>, s': Prog) {
    && Enabled(s.m, e) && s'.m == Effect(s.m, e)
    && |s.pc| == |s.m.mode| && |s'.pc| == |s.pc| && s'.pc == s.pc[e.t := s'.pc[e.t]] && Step(s, e, s'.pc[e.t])
  }

  predicate Start(s: Prog) {
    && Monitor.Start(s.m) && s.m.d == Lock(false, 0) && |s.pc| == |s.m.mode|
    && forall p | 0 <= p < |s.pc| :: s.pc[p] == Outside
  }

  // ----- what every reachable state satisfies -----

  predicate HasSpin(pc: Pc) {
    pc == Test || pc == Took || pc == Clear || pc == Wake || pc == Scanning || pc == Leave
  }

  predicate HasLock(pc: Pc) {
    pc == Took || pc == Inside || pc == Clear
  }

  predicate ProcOk(s: Prog, p: nat)
    requires p < |s.pc| == |s.m.mode|
  {
    var pc := s.pc[p];
    && (HasSpin(pc) ==> s.m.lk == Some(p) && s.m.mode[p] == Running)
    && (s.m.lk == Some(p) ==> HasSpin(pc) || (pc == Sleeping && s.m.mode[p].Locking?))
    && (HasSpin(pc) ==> s.m.owed == (if pc == Wake then {CHAN} else {}) && s.m.scan.Some? == (pc == Scanning))
    && (pc != Sleeping ==> s.m.mode[p] == Running)
    && (s.m.mode[p].Locking? ==> s.m.lk == Some(p) && s.m.mode[p].chan == CHAN)
    && (HasLock(pc) ==> s.m.d == Lock(true, p))
  }

  predicate Inv(s: Prog) {
    && |s.pc| == |s.m.mode| && Monitor.Inv(Cond, s.m)
    && (forall p: nat | p < |s.pc| :: ProcOk(s, p))
    && (s.m.d.locked ==> s.m.d.pid < |s.pc| && HasLock(s.pc[s.m.d.pid]))
  }

  /** The program keeps the discipline of sleep and wakeup. */
  lemma StepProper(s: Prog, e: Event<Lock>, s': Prog)
    requires Inv(s) && Next(s, e, s')
    ensures Proper(Cond, s.m, e)
  {
    assert ProcOk(s, e.t);
  }

  lemma NextKeeps(s: Prog, e: Event<Lock>, s': Prog)
    requires Inv(s) && Next(s, e, s')
    ensures Inv(s')
  {
    StepProper(s, e, s');
    Monitor.NextKeeps(Cond, s.m, e, s'.m);
    assert ProcOk(s, e.t);
    forall p: nat | p < |s'.pc|
      ensures ProcOk(s', p)
    {
      assert ProcOk(s, p);
    }
  }

  predicate IsRun(ss: seq<Prog>, es: seq<Event<Lock>>) {
    |ss| == |es| + 1 && Start(ss[0]) && forall i | 0 <= i < |es| :: Next(ss[i], es[i], ss[i + 1])
  }

  lemma {:induction false} RunInv(ss: seq<Prog>, es: seq<Event<Lock>>, i: nat)
    requires IsRun(ss, es) && i < |ss|
    ensures Inv(ss[i])
  {
    if i > 0 {
      RunInv(ss, es, i - 1);
      NextKeeps(ss[i - 1], es[i - 1], ss[i]);
    }
  }

  /** `holdingsleep`. */
  predicate Holding(s: Prog, p: nat) {
    s.m.d.locked && s.m.d.pid == p
  }

  /** At every point of every run: at most one process is inside, it is the one `holdingsleep` says,
      and a lock that is taken has an owner; and no process waits for a free lock unless the holder of
      the spin lock has yet to wake it. */
  lemma SleepLockSafe(ss: seq<Prog>, es: seq<Event<Lock>>, i: nat, p: nat, q: nat)
    requires IsRun(ss, es) && i < |ss| && p < |ss[i].pc| && q < |ss[i].pc|
    ensures ss[i].pc[p] == ss[i].pc[q] == Inside ==> p == q
    ensures ss[i].pc[p] == Inside ==> Holding(ss[i], p)
    ensures Holding(ss[i], p) ==> HasLock(ss[i].pc[p])
    ensures |ss[i].pc| == |ss[i].m.mode|
    ensures (Waits(ss[i].m.mode[p], CHAN) && !ss[i].m.d.locked ==> YetToScan(ss[i].m, p, CHAN))
  {
    RunInv(ss, es, i);
    assert ProcOk(ss[i], p) && ProcOk(ss[i], q) && NotLost(Cond, ss[i].m, p);
  }
}
