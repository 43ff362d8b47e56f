/** `wait`, `exit` and `fork` under `wait_lock`: any number of processes, interleaved. */
module WaitExit {
  import opened Basics
  import opened Monitor

  /** What `wait_lock` guards: who is whose parent, and which processes have exited. */
  datatype Family = Family(parent: seq<Option<nat>>, zombie: seq<bool>)

  const INIT: nat := 0

  /** Process `p` sleeps in `wait` on channel `p`; it waits for a child that has exited. */
  predicate Cond(p: nat, d: Family) {
    exists q | 0 <= q < |d.parent| && q < |d.zombie| :: d.parent[q] == Some(p) && d.zombie[q]
  }

  /** Where a process is. In `wait`: Seek looks for an exited child, Sleeping is the call of `sleep`,
      Retry the way back to the lock, Leave the way out. In `exit`: Give(i) looks at child `i`, GiveWake
      and GiveScan wake init for it, TellScan wakes the parent, Told is about to become a zombie, Dead to
      let go of the lock, and Gone is off the CPU for good. In `fork`: Birth. Unused is a free slot. */
  datatype Pc = Code | Seek | Sleeping | Retry | Leave | Birth
              | Give(i: nat) | GiveWake(i: nat) | GiveScan(i: nat) | TellScan | Told | Dead | Gone | Unused

  datatype Prog = Prog(m: State<Family>, pc: seq<Pc>)

  /** An event, and the child that `wait` frees or `fork` makes by it. */
  datatype Action = Action(e: Event<Family>, q: nat)

  predicate Shaped(s: Prog) {
    |s.pc| == |s.m.mode| == |s.m.d.parent| == |s.m.d.zombie|
  }

  /** An update of the data: from where, to where, and what becomes of the other process. */
  predicate Changes(s: Prog, t: nat, q: nat, d: Family, owed: set<nat>, to: Pc, toq: Pc)
    requires Shaped(s) && t < |s.pc| && q < |s.pc|
  {
    var f := s.m.d;
    match s.pc[t]
    case Seek =>
      && owed == s.m.owed && to == Leave
      && if f.parent[q] == Some(t) && f.zombie[q] && q != t
         then d == Family(f.parent[q := None], f.zombie[q := false]) && toq == Unused
         else d == f && toq == s.pc[q]
    case Birth =>
      && owed == s.m.owed && to == Leave && q != t
      && s.pc[q] == Unused && d == f.(parent := f.parent[q := Some(t)]) && toq == Code
    case Give(i) =>
      && i < |s.pc| && toq == s.pc[q]
      && if f.parent[i] == Some(t)
         then d == f.(parent := f.parent[i := Some(INIT)]) && owed == s.m.owed + {INIT} && to == GiveWake(i)
         else d == f && owed == s.m.owed && to == Give(i + 1)
    case Told => d == f.(zombie := f.zombie[t := true]) && owed == s.m.owed && to == Dead && toq == s.pc[q]
    case _ => false
  }

  /** What the program of process `e.t` lets it do, and where that takes it. */
  predicate Step(s: Prog, e: Event<Family>, q: nat, to: Pc, toq: Pc)
    requires Shaped(s) && e.t < |s.pc| && q < |s.pc|
  {
    var at := s.pc[e.t];
    if e.Update? then Changes(s, e.t, q, e.d, e.owed, to, toq)
    else
      && toq == s.pc[q]
      && match e
         case Acquire(t) =>
           || ((at == Code || at == Retry) && to == Seek) || (at == Code && to == Birth)
           || (at == Code && t != INIT && to == Give(0))
         case WakeStart(t, chan) =>
           || (at.GiveWake? && chan == INIT && to == GiveScan(at.i))
           || (at == Give(|s.pc|) && s.m.d.parent[t] == Some(chan) && to == TellScan)
         case WakeStep(t) => (at.GiveScan? || at == TellScan) && to == at
         case WakeEnd(t) => (at.GiveScan? && to == Give(at.i + 1)) || (at == TellScan && to == Told)
         case Release(t) => (at == Leave && to == Code) || (at == Dead && to == Gone)
         case SleepStart(t, chan) => at == Seek && !Cond(t, s.m.d) && chan == t && to == Sleeping
         case SleepRelease(t) => at == Sleeping && to == at
         case SleepMark(t) => at == Sleeping && to == at
         case SleepSwitch(t) => at == Sleeping && to == at
         case Kill(t) => to == at
         case Resume(t) => at == Sleeping && to == Retry
  }

  predicate Next(s: Prog, a: Action, s': Prog) {
    && Shaped(s) && Enabled(s.m, a.e) && s'.m == Effect(s.m, a.e) && a.e.t < |s.pc| == |s'.pc| && a.q < |s.pc|
    && s'.pc == s.pc[a.q := s'.pc[a.q]][a.e.t := s'.pc[a.e.t]]
    && Step(s, a.e, a.q, s'.pc[a.e.t], if a.q == a.e.t then s.pc[a.q] else s'.pc[a.q])
  }

  /** Some processes are in their code, the other slots are unused; nobody has exited. */
  predicate Start(s: Prog) {
    && Monitor.Start(s.m) && Shaped(s)
    && forall p | 0 <= p < |s.pc| :: (s.pc[p] == Code || s.pc[p] == Unused) && !s.m.d.zombie[p]
  }

  // ----- what every reachable state satisfies -----

  predicate HasLock(pc: Pc) {
    || pc == Seek || pc == Leave || pc == Birth || pc.Give? || pc.GiveWake? || pc.GiveScan? || pc == TellScan
    || pc == Told || pc == Dead
  }

  predicate ProcOk(s: Prog, p: nat)
    requires Shaped(s) && p < |s.pc|
  {
    var pc := s.pc[p];
    && (HasLock(pc) ==> s.m.lk == Some(p) && s.m.mode[p] == Running)
    && (s.m.lk == Some(p) ==> HasLock(pc) || (pc == Sleeping && s.m.mode[p].Locking?))
    && (HasLock(pc) ==>
          s.m.owed == (if pc.GiveWake? then {INIT} else {}) && s.m.scan.Some? == (pc.GiveScan? || pc == TellScan))
    && (pc != Sleeping ==> s.m.mode[p] == Running)
    && (s.m.mode[p].Locking? ==> s.m.lk == Some(p) && s.m.mode[p].chan == p)
    && (pc == TellScan ==> s.m.scan.Some? && s.m.d.parent[p] == Some(s.m.scan.value.chan))
    && (pc == Told ==> s.m.d.parent[p].Some? && NobodyWaits(s.m, s.m.d.parent[p].value))
    && (s.m.d.zombie[p] <==> pc == Dead || pc == Gone)
  }

  ghost predicate Inv(s: Prog) {
    Shaped(s) && Monitor.Inv(Cond, s.m) && forall p: nat | p < |s.pc| :: ProcOk(s, p)
  }

  /** The program keeps the discipline of sleep and wakeup. In `exit` the wakeup comes before the
      condition it is for, and that is all right: the lock is held throughout. */
  lemma StepProper(s: Prog, a: Action, s': Prog)
    requires Inv(s) && Next(s, a, s')
    ensures Proper(Cond, s.m, a.e)
  {
    assert ProcOk(s, a.e.t) && ProcOk(s, a.q);
    if a.e.Update? {
      forall c: nat | Cond(c, a.e.d) && !Cond(c, s.m.d)
        ensures c in a.e.owed || NobodyWaits(s.m, c)
      {
        var q :| 0 <= q < |a.e.d.parent| && a.e.d.parent[q] == Some(c) && a.e.d.zombie[q];
        assert ProcOk(s, q);
        assert q < |s.m.d.parent| && !(s.m.d.parent[q] == Some(c) && s.m.d.zombie[q]);
      }
    }
  }

  /** The process that takes the step. */
  lemma SelfKept(s: Prog, a: Action, s': Prog)
    requires Inv(s) && Next(s, a, s')
    ensures Shaped(s') && ProcOk(s', a.e.t)
  {
    assert ProcOk(s, a.e.t) && ProcOk(s, a.q);
    hide NotLost, Cond;
  }

  /** Any other process. */
  lemma OtherKept(s: Prog, a: Action, s': Prog, p: nat)
    requires Inv(s) && Next(s, a, s') && p < |s.pc| && p != a.e.t
    ensures Shaped(s') && ProcOk(s', p)
  {
    hide Monitor.Inv, Next, ProcOk;
    if a.e.Update? {
      UpdateKept(s, a, s', p);
    } else {
      MoveKept(s, a, s', p);
    }
  }

  lemma UpdateKept(s: Prog, a: Action, s': Prog, p: nat)
    requires Inv(s) && Next(s, a, s') && p < |s.pc| && p != a.e.t && a.e.Update?
    ensures Shaped(s') && ProcOk(s', p)
  {
    assert ProcOk(s, a.e.t) && ProcOk(s, a.q) && ProcOk(s, p);
    hide NotLost, Cond, NobodyWaits;
  }

  lemma MoveKept(s: Prog, a: Action, s': Prog, p: nat)
    requires Inv(s) && Next(s, a, s') && p < |s.pc| && p != a.e.t && !a.e.Update?
    ensures Shaped(s') && ProcOk(s', p)
  {
    assert ProcOk(s, a.e.t) && ProcOk(s, p);
    hide NotLost, Cond, NobodyWaits, Changes;
  }

  lemma NextKeeps(s: Prog, a: Action, s': Prog)
    requires Inv(s) && Next(s, a, s')
    ensures Inv(s')
  {
    hide Monitor.Inv, Next, ProcOk;
    StepProper(s, a, s');
    MonitorKept(s, a, s');
    SelfKept(s, a, s');
    forall p: nat | p < |s'.pc|
      ensures ProcOk(s', p)
    {
      if p != a.e.t {
        OtherKept(s, a, s', p);
      }
    }
  }

  lemma MonitorKept(s: Prog, a: Action, s': Prog)
    requires Inv(s) && Next(s, a, s') && Proper(Cond, s.m, a.e)
    ensures Monitor.Inv(Cond, s'.m) && |s'.pc| == |s.pc|
  {
    hide Monitor.Inv, Step, ProcOk, Proper;
    Monitor.NextKeeps(Cond, s.m, a.e, s'.m);
  }

  predicate IsRun(ss: seq<Prog>, actions: seq<Action>) {
    |ss| == |actions| + 1 && Start(ss[0]) && forall i | 0 <= i < |actions| :: Next(ss[i], actions[i], ss[i + 1])
  }

  lemma {:induction false} RunInv(ss: seq<Prog>, actions: seq<Action>, i: nat)
    requires IsRun(ss, actions) && i < |ss|
    ensures Inv(ss[i])
  {
    hide Next, ProcOk;
    if i > 0 {
      RunInv(ss, actions, i - 1);
      NextKeeps(ss[i - 1], actions[i - 1], ss[i]);
    } else {
      StartInv(ss[0]);
    }
  }

  lemma StartInv(s: Prog)
    requires Start(s)
    ensures Inv(s)
  {
  }

  /** At every point of every run, a process that sleeps in `wait` although a child of its has exited is
      about to be woken by the holder of `wait_lock`; and exactly those are zombies that have come to the end of
      `exit` and have not been freed. */
  lemma WaitSafe(ss: seq<Prog>, actions: seq<Action>, i: nat, p: nat)
    requires IsRun(ss, actions) && i < |ss| && p < |ss[i].m.mode|
    ensures Waits(ss[i].m.mode[p], p) && Cond(p, ss[i].m.d) ==> YetToScan(ss[i].m, p, p)
    ensures Shaped(ss[i]) && (ss[i].m.d.zombie[p] <==> ss[i].pc[p] == Dead || ss[i].pc[p] == Gone)
  {
    RunInv(ss, actions, i);
    assert NotLost(Cond, ss[i].m, p) && ProcOk(ss[i], p);
  }
}
