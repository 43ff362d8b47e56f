/** The scheduler, `yield`, `sleep`, `fork`, `exit` and `wait` for any number of processes and CPUs,
    one step per action under a process's lock or under `wait_lock`. */
module Sched {
  import opened Basics

  datatype PState = UNUSED | USED | SLEEPING | RUNNABLE | RUNNING | ZOMBIE

  /** Where a process's kernel thread is. Code runs no step modelled here; Switching holds the process
      lock on its way into `sched`; Switched is inside `swtch`; Exiting(i) gives children to init,
      holding `wait_lock`; Dying is a zombie that still holds `wait_lock`; Waiting(i, kids) is the scan of
      `wait`, which has seen a child or not. */
  datatype Pc = Code | Switching | Switched | Exiting(i: nat) | Dying | Waiting(i: nat, kids: bool)

  /** A `fork` under way, which has made the new process or has also given it its parent; or a `wait` that
      has slept and will scan again. It holds no lock then, and a timer interrupt can take the CPU from it. */
  datatype Job = NoJob | Forking(child: nat) | Forked(child: nat) | Rescan

  /** Why `wait` returns -1. */
  datatype Why = NoKids | Killed | BadAddress

  /** `lock` is the CPU holding the process's lock; `cpu` the CPU that has it as its current process. */
  datatype Proc = Proc(state: PState, lock: Option<nat>, cpu: Option<nat>, parent: Option<nat>, pc: Pc, job: Job)

  /** A CPU is in its scheduler loop, runs a process, or is back in the scheduler from one whose lock
      it still holds. */
  datatype Cpu = Idle | Run(p: nat) | Back(p: nat)

  const INIT: nat := 0

  datatype State = State(procs: seq<Proc>, cpus: seq<Cpu>, waitLock: Option<nat>)

  datatype Event =
    | Pick(c: nat, p: nat)
    | Resume(c: nat)
    | GiveUp(c: nat, asleep: bool)
    | Switch(c: nat)
    | Done(c: nat)
    | Wake(c: nat, p: nat)
    | ForkAlloc(c: nat, p: nat)
    | ForkParent(c: nat)
    | ForkRun(c: nat)
    | ExitLock(c: nat)
    | ExitScan(c: nat)
    | ExitZombie(c: nat)
    | ExitRelease(c: nat)
    | WaitLock(c: nat)
    | WaitScan(c: nat)
    | WaitSleep(c: nat)
    | WaitReturn(c: nat, why: Why)

  /** The process CPU `c` runs. */
  function Me(s: State, c: nat): Proc
    requires c < |s.cpus| && s.cpus[c].Run? && s.cpus[c].p < |s.procs|
  {
    s.procs[s.cpus[c].p]
  }

  predicate Forks(x: Proc) {
    x.job.Forking? || x.job.Forked?
  }

  function Set(s: State, p: nat, x: Proc): State
    requires p < |s.procs|
  {
    s.(procs := s.procs[p := x])
  }

  predicate Running(s: State, c: nat) {
    c < |s.cpus| && s.cpus[c].Run? && s.cpus[c].p < |s.procs|
  }

  predicate PickStep(s: State, c: nat, p: nat, s': State) {
    && c < |s.cpus| && s.cpus[c] == Idle && p < |s.procs| && s.procs[p].lock == None && s.procs[p].state == RUNNABLE
    && s' == Set(s, p, s.procs[p].(state := RUNNING, lock := Some(c), cpu := Some(c))).(cpus := s.cpus[c := Run(p)])
  }

  /** Back from `swtch`, or at the start of `forkret`: release the process lock. */
  predicate ResumeStep(s: State, c: nat, s': State) {
    Running(s, c) && Me(s, c).pc == Switched && s' == Set(s, s.cpus[c].p, Me(s, c).(lock := None, pc := Code))
  }

  /** `yield`, by a timer interrupt in user or kernel code too, or `sleep` up to its call of `sched`. */
  predicate GiveUpStep(s: State, c: nat, asleep: bool, s': State) {
    && Running(s, c) && Me(s, c).pc == Code && Me(s, c).lock == None && (asleep ==> Me(s, c).job == NoJob)
    && s' ==
         Set(s, s.cpus[c].p,
             Me(s, c).(lock := Some(c), state := if asleep then SLEEPING else RUNNABLE, pc := Switching))
  }

  predicate SwitchStep(s: State, c: nat, s': State) {
    && Running(s, c) && Me(s, c).pc == Switching
    && s' == Set(s, s.cpus[c].p, Me(s, c).(pc := Switched)).(cpus := s.cpus[c := Back(s.cpus[c].p)])
  }

  predicate DoneStep(s: State, c: nat, s': State) {
    && c < |s.cpus| && s.cpus[c].Back? && s.cpus[c].p < |s.procs|
    && s' == Set(s, s.cpus[c].p, s.procs[s.cpus[c].p].(lock := None, cpu := None)).(cpus := s.cpus[c := Idle])
  }

  /** `wakeup` or `kill` reaching a sleeping process, called by the process on the CPU or by an interrupt, which
      may find the CPU idle. */
  predicate WakeStep(s: State, c: nat, p: nat, s': State) {
    && c < |s.cpus| && p < |s.procs| && (s.cpus[c].Run? ==> p != s.cpus[c].p)
    && s.procs[p].lock == None && s.procs[p].state == SLEEPING
    && s' == Set(s, p, s.procs[p].(state := RUNNABLE))
  }

  /** `fork` makes a new process, and lets go of its lock. */
  predicate ForkAllocStep(s: State, c: nat, p: nat, s': State) {
    && Running(s, c) && Me(s, c).pc == Code && Me(s, c).job == NoJob
    && p < |s.procs| && s.procs[p].lock == None && s.procs[p].state == UNUSED
    && s' == Set(Set(s, p, Proc(USED, None, None, None, Switched, NoJob)), s.cpus[c].p, Me(s, c).(job := Forking(p)))
  }

  /** The section of `fork` under `wait_lock`. */
  predicate ForkParentStep(s: State, c: nat, s': State) {
    && Running(s, c) && Me(s, c).pc == Code && Me(s, c).job.Forking? && s.waitLock == None
    && Me(s, c).job.child < |s.procs|
    && var p := Me(s, c).job.child;
       s' == Set(Set(s, p, s.procs[p].(parent := Some(s.cpus[c].p))), s.cpus[c].p, Me(s, c).(job := Forked(p)))
  }

  /** The new process becomes runnable, under its lock. */
  predicate ForkRunStep(s: State, c: nat, s': State) {
    && Running(s, c) && Me(s, c).pc == Code && Me(s, c).job.Forked? && Me(s, c).job.child < |s.procs|
    && var p := Me(s, c).job.child;
       && s.procs[p].lock == None
       && s' == Set(Set(s, p, s.procs[p].(state := RUNNABLE)), s.cpus[c].p, Me(s, c).(job := NoJob))
  }

  predicate ExitLockStep(s: State, c: nat, s': State) {
    && Running(s, c) && Me(s, c).pc == Code && Me(s, c).job == NoJob && s.cpus[c].p != INIT && s.waitLock == None
    && s' == Set(s, s.cpus[c].p, Me(s, c).(pc := Exiting(0))).(waitLock := Some(c))
  }

  function Reparented(x: Proc, p: nat): Proc {
    if x.parent == Some(p) then x.(parent := Some(INIT)) else x
  }

  /** One round of the loop in `reparent`. */
  predicate ExitScanStep(s: State, c: nat, s': State) {
    && Running(s, c) && Me(s, c).pc.Exiting? && Me(s, c).pc.i < |s.procs|
    && var i, p := Me(s, c).pc.i, s.cpus[c].p;
       var t := Set(s, i, Reparented(s.procs[i], p));
       s' == Set(t, p, t.procs[p].(pc := Exiting(i + 1)))
  }

  predicate ExitZombieStep(s: State, c: nat, s': State) {
    && Running(s, c) && Me(s, c).pc == Exiting(|s.procs|) && Me(s, c).lock == None
    && s' == Set(s, s.cpus[c].p, Me(s, c).(lock := Some(c), state := ZOMBIE, pc := Dying))
  }

  predicate ExitReleaseStep(s: State, c: nat, s': State) {
    Running(s, c) && Me(s, c).pc == Dying && s' == Set(s, s.cpus[c].p, Me(s, c).(pc := Switching)).(waitLock := None)
  }

  predicate WaitLockStep(s: State, c: nat, s': State) {
    && Running(s, c) && Me(s, c).pc == Code && !Forks(Me(s, c)) && s.waitLock == None
    && s' == Set(s, s.cpus[c].p, Me(s, c).(pc := Waiting(0, false), job := NoJob)).(waitLock := Some(c))
  }

  /** Reaping frees the process slot. */
  const FREED: Proc := Proc(UNUSED, None, None, None, Switched, NoJob)

  /** One round of the scan in `wait`: pass over a process, or free a zombie child and return. */
  predicate WaitScanStep(s: State, c: nat, s': State) {
    && Running(s, c) && Me(s, c).pc.Waiting? && Me(s, c).pc.i < |s.procs|
    && var i, p := Me(s, c).pc.i, s.cpus[c].p;
       if s.procs[i].parent != Some(p) then s' == Set(s, p, Me(s, c).(pc := Waiting(i + 1, Me(s, c).pc.kids)))
       else
         && s.procs[i].lock == None
         && if s.procs[i].state == ZOMBIE then s' == Set(Set(s, i, FREED), p, Me(s, c).(pc := Code)).(waitLock := None)
            else s' == Set(s, p, Me(s, c).(pc := Waiting(i + 1, true)))
  }

  /** The scan has found no child that has exited: sleep, and scan again later. */
  predicate WaitSleepStep(s: State, c: nat, s': State) {
    && Running(s, c) && Me(s, c).pc == Waiting(|s.procs|, true) && Me(s, c).lock == None
    && s' ==
         Set(s, s.cpus[c].p, Me(s, c).(lock := Some(c), state := SLEEPING, pc := Switching, job := Rescan))
           .(waitLock := None)
  }

  /** `wait` returns -1: no children, killed, or a zombie whose exit status cannot be copied out. */
  predicate WaitReturnStep(s: State, c: nat, why: Why, s': State) {
    && Running(s, c) && Me(s, c).pc.Waiting?
    && (var i := Me(s, c).pc.i;
        match why
        case NoKids => i == |s.procs| && !Me(s, c).pc.kids
        case Killed => i == |s.procs|
        case BadAddress =>
          && i < |s.procs| && s.procs[i].parent == Some(s.cpus[c].p)
          && s.procs[i].lock == None && s.procs[i].state == ZOMBIE)
    && s' == Set(s, s.cpus[c].p, Me(s, c).(pc := Code)).(waitLock := None)
  }

  predicate Next(s: State, e: Event, s': State) {
    match e
    case Pick(c, p) => PickStep(s, c, p, s')
    case Resume(c) => ResumeStep(s, c, s')
    case GiveUp(c, asleep) => GiveUpStep(s, c, asleep, s')
    case Switch(c) => SwitchStep(s, c, s')
    case Done(c) => DoneStep(s, c, s')
    case Wake(c, p) => WakeStep(s, c, p, s')
    case ForkAlloc(c, p) => ForkAllocStep(s, c, p, s')
    case ForkParent(c) => ForkParentStep(s, c, s')
    case ForkRun(c) => ForkRunStep(s, c, s')
    case ExitLock(c) => ExitLockStep(s, c, s')
    case ExitScan(c) => ExitScanStep(s, c, s')
    case ExitZombie(c) => ExitZombieStep(s, c, s')
    case ExitRelease(c) => ExitReleaseStep(s, c, s')
    case WaitLock(c) => WaitLockStep(s, c, s')
    case WaitScan(c) => WaitScanStep(s, c, s')
    case WaitSleep(c) => WaitSleepStep(s, c, s')
    case WaitReturn(c, why) => WaitReturnStep(s, c, why, s')
  }

  /** Only init exists, and is ready to run. */
  predicate Boot(s: State) {
    && s.procs != [] && s.waitLock == None
    && (forall c | 0 <= c < |s.cpus| :: s.cpus[c] == Idle)
    && forall p | 0 <= p < |s.procs| :: s.procs[p] == if p == INIT then FREED.(state := RUNNABLE) else FREED
  }

  // ----- what every reachable state satisfies -----

  predicate HasWait(pc: Pc) {
    pc.Exiting? || pc.Dying? || pc.Waiting?
  }

  /** A process on no CPU is not running and was left inside `swtch`, its lock free. One on a CPU is
      running, or holds its lock on the way out. */
  predicate ProcOk(s: State, p: nat)
    requires p < |s.procs|
  {
    var x := s.procs[p];
    match x.cpu
    case None => x.state != RUNNING && x.pc == Switched && x.lock == None
    case Some(c) =>
      && c < |s.cpus|
      && match s.cpus[c]
         case Idle => false
         case Run(q) =>
           && q == p
           && (if x.pc == Switching || x.pc == Dying then x.lock == Some(c)
               && (x.state == RUNNABLE || x.state == SLEEPING || x.state == ZOMBIE)
               else x.state == RUNNING && x.lock == if x.pc == Switched then Some(c) else None)
           && (HasWait(x.pc) ==> s.waitLock == Some(c))
           && (x.pc == Dying ==> x.state == ZOMBIE)
         case Back(q) =>
           && q == p && x.pc == Switched && x.lock == Some(c)
           && (x.state == RUNNABLE || x.state == SLEEPING || x.state == ZOMBIE)
  }

  predicate CpuOk(s: State, c: nat)
    requires c < |s.cpus|
  {
    s.cpus[c].Idle? || (s.cpus[c].p < |s.procs| && s.procs[s.cpus[c].p].cpu == Some(c))
  }

  predicate Alive(s: State, p: nat) {
    p < |s.procs| && s.procs[p].state != ZOMBIE && s.procs[p].state != UNUSED
  }

  /** A parent is another process and alive, and a process that is exiting has given away the
      children it has scanned. */
  predicate ParentOk(s: State, q: nat)
    requires q < |s.procs|
  {
    var r := s.procs[q].parent;
    r.Some? ==>
      r.value != q && q != INIT && Alive(s, r.value) && (s.procs[r.value].pc.Exiting? ==> s.procs[r.value].pc.i <= q)
  }

  /** The new process of a `fork` under way is nobody else's business. */
  predicate ForkOk(s: State, p: nat)
    requires p < |s.procs|
  {
    Forks(s.procs[p]) ==> s.procs[p].job.child < |s.procs| && s.procs[s.procs[p].job.child].state == USED
  }

  predicate ForksApart(s: State, p: nat, q: nat)
    requires p < |s.procs| && q < |s.procs|
  {
    Forks(s.procs[p]) && Forks(s.procs[q]) && p != q ==> s.procs[p].job.child != s.procs[q].job.child
  }

  predicate WaitOk(s: State) {
    s.waitLock.Some? ==> Running(s, s.waitLock.value) && HasWait(Me(s, s.waitLock.value).pc)
  }

  /** Init has started and never exits. */
  predicate InitOk(s: State) {
    Alive(s, INIT) && s.procs[INIT].state != USED && !s.procs[INIT].pc.Exiting? && !s.procs[INIT].pc.Dying?
  }

  predicate Inv(s: State) {
    && InitOk(s) && WaitOk(s)
    && (forall p: nat | p < |s.procs| :: ProcOk(s, p))
    && (forall c: nat | c < |s.cpus| :: CpuOk(s, c))
    && (forall q: nat | q < |s.procs| :: ParentOk(s, q))
    && (forall p: nat | p < |s.procs| :: ForkOk(s, p))
    && forall p: nat, q: nat | p < |s.procs| && q < |s.procs| :: ForksApart(s, p, q)
  }

  lemma BootInv(s: State)
    requires Boot(s)
    ensures Inv(s)
  {
  }

  /** The process CPU `c` is concerned with, if any, is all right and on no other CPU. */
  lemma Mine(s: State, c: nat)
    requires Inv(s) && c < |s.cpus|
    ensures CpuOk(s, c)
    ensures s.cpus[c] != Idle ==> s.cpus[c].p < |s.procs| && ProcOk(s, s.cpus[c].p)
  {
    assert CpuOk(s, c);
    assert s.cpus[c] != Idle ==> ProcOk(s, s.cpus[c].p);
  }

  /** The process a step changes besides the one its CPU runs. */
  function Other(s: State, e: Event): nat {
    match e
    case Pick(c, p) => p
    case Wake(c, p) => p
    case ForkAlloc(c, p) => p
    case ForkParent(c) => if Running(s, c) && Forks(Me(s, c)) then Me(s, c).job.child else 0
    case ForkRun(c) => if Running(s, c) && Forks(Me(s, c)) then Me(s, c).job.child else 0
    case ExitScan(c) => if Running(s, c) && Me(s, c).pc.Exiting? then Me(s, c).pc.i else 0
    case WaitScan(c) => if Running(s, c) && Me(s, c).pc.Waiting? then Me(s, c).pc.i else 0
    case _ => if Running(s, e.c) then s.cpus[e.c].p else 0
  }

  lemma OtherOk(s: State, e: Event, s': State)
    requires Inv(s) && Next(s, e, s')
    ensures Other(s, e) < |s.procs| && ProcOk(s, Other(s, e)) && ParentOk(s, Other(s, e)) && ForkOk(s, Other(s, e))
    ensures Running(s, e.c) ==> ForkOk(s, s.cpus[e.c].p)
  {
    assert Other(s, e) < |s.procs| ==> ProcOk(s, Other(s, e)) && ParentOk(s, Other(s, e)) && ForkOk(s, Other(s, e));
    Mine(s, e.c);
  }

  lemma At(s: State, p: nat)
    requires Inv(s) && p < |s.procs|
    ensures ProcOk(s, p) && ParentOk(s, p) && ForkOk(s, p)
  {
  }

  lemma InvAlive(s: State)
    requires Inv(s)
    ensures InitOk(s) && WaitOk(s) && s.procs[INIT].parent == None
  {
    At(s, INIT);
  }

  /** The process CPU `e.c` is concerned with, or the one it picks. */
  function Cur(s: State, e: Event): nat {
    if e.c < |s.cpus| && s.cpus[e.c] != Idle then s.cpus[e.c].p else Other(s, e)
  }

  predicate WithCpu(x: Proc, c: nat) {
    x.cpu == None || x.cpu == Some(c)
  }

  predicate OnlyParent(x: Proc, x': Proc) {
    x' == x.(parent := x'.parent)
  }

  predicate LockMoves(s: State, s': State, c: nat) {
    || s'.waitLock == s.waitLock
    || ((s.waitLock == None || s.waitLock == Some(c)) && (s'.waitLock == None || s'.waitLock == Some(c)))
  }

  /** Nothing but processes `p` and `q` and CPU `c` changes, and those are concerned with each other
      or with nobody. */
  predicate Local(s: State, s': State, p: nat, q: nat, c: nat) {
    && p < |s.procs| == |s'.procs| && q < |s.procs| && c < |s.cpus| == |s'.cpus| && LockMoves(s, s', c)
    && (forall r: nat | r < |s.procs| && r != p && r != q :: s'.procs[r] == s.procs[r])
    && (forall d: nat | d < |s.cpus| && d != c :: s'.cpus[d] == s.cpus[d])
    && (WithCpu(s.procs[p], c) || OnlyParent(s.procs[p], s'.procs[p])) && WithCpu(s.procs[q], c)
    && (s.cpus[c] != Idle ==> s.cpus[c].p == p || s.cpus[c].p == q)
  }

  predicate Moves(e: Event) {
    e.Pick? || e.Resume? || e.GiveUp? || e.Switch? || e.Done? || e.Wake?
  }

  lemma MoveLocal(s: State, e: Event, s': State)
    requires Inv(s) && Next(s, e, s') && Moves(e)
    ensures Local(s, s', Other(s, e), Cur(s, e), e.c)
  {
    hide Inv, ParentOk;
    Mine(s, e.c);
    OtherOk(s, e, s');
  }

  lemma CallLocal(s: State, e: Event, s': State)
    requires Inv(s) && Next(s, e, s') && !Moves(e)
    ensures Local(s, s', Other(s, e), Cur(s, e), e.c)
  {
    hide Inv, ParentOk;
    Mine(s, e.c);
    OtherOk(s, e, s');
  }

  lemma StepLocal(s: State, e: Event, s': State)
    requires Inv(s) && Next(s, e, s')
    ensures Local(s, s', Other(s, e), Cur(s, e), e.c)
  {
    hide Inv, Next, Local, Other, Cur;
    if Moves(e) {
      MoveLocal(s, e, s');
    } else {
      CallLocal(s, e, s');
    }
  }

  lemma Frame(s: State, s': State, p: nat, q: nat, c: nat)
    requires Inv(s) && Local(s, s', p, q, c)
    ensures forall r: nat | r < |s'.procs| && ((r != p && r != q) || (r != q && !WithCpu(s.procs[r], c))) ::
              ProcOk(s', r)
    ensures forall d: nat | d < |s'.cpus| && d != c :: CpuOk(s', d)
  {
    hide Inv, ParentOk, ForkOk;
    forall r: nat | r < |s'.procs| && ((r != p && r != q) || (r != q && !WithCpu(s.procs[r], c)))
      ensures ProcOk(s', r)
    {
      At(s, r);
      Mine(s, c);
    }
    forall d: nat | d < |s'.cpus| && d != c
      ensures CpuOk(s', d)
    {
      Mine(s, d);
    }
  }

  /** The two processes and the CPU a step concerns are all right after it. */
  predicate HereOk(s: State, e: Event, s': State) {
    && |s'.procs| == |s.procs| && |s'.cpus| == |s.cpus|
    && Cur(s, e) < |s.procs| && ProcOk(s', Cur(s, e)) && e.c < |s.cpus| && CpuOk(s', e.c)
    && Other(s, e) < |s.procs| && (WithCpu(s.procs[Other(s, e)], e.c) ==> ProcOk(s', Other(s, e)))
    && InitOk(s') && WaitOk(s')
  }

  lemma PickHere(s: State, e: Event, s': State)
    requires Inv(s) && Next(s, e, s') && (e.Pick? || e.Wake? || e.Done?)
    ensures HereOk(s, e, s')
  {
    hide Inv, ParentOk, ForkOk;
    InvAlive(s);
    Mine(s, e.c);
    OtherOk(s, e, s');
  }

  lemma LeaveHere(s: State, e: Event, s': State)
    requires Inv(s) && Next(s, e, s') && (e.Resume? || e.GiveUp? || e.Switch?)
    ensures HereOk(s, e, s')
  {
    hide Inv, ParentOk, ForkOk;
    InvAlive(s);
    Mine(s, e.c);
    OtherOk(s, e, s');
  }

  lemma ForkHere(s: State, e: Event, s': State)
    requires Inv(s) && Next(s, e, s') && (e.ForkAlloc? || e.ForkParent? || e.ForkRun?)
    ensures HereOk(s, e, s')
  {
    hide Inv, ParentOk;
    InvAlive(s);
    Mine(s, e.c);
    OtherOk(s, e, s');
  }

  lemma ExitHere(s: State, e: Event, s': State)
    requires Inv(s) && Next(s, e, s') && (e.ExitLock? || e.ExitZombie? || e.ExitRelease?)
    ensures HereOk(s, e, s')
  {
    hide Inv, ParentOk, ForkOk;
    InvAlive(s);
    Mine(s, e.c);
    OtherOk(s, e, s');
  }

  lemma ReparentHere(s: State, e: Event, s': State)
    requires Inv(s) && Next(s, e, s') && (e.ExitScan?)
    ensures HereOk(s, e, s')
  {
    hide Inv, ForkOk;
    InvAlive(s);
    Mine(s, e.c);
    OtherOk(s, e, s');
  }

  lemma ReapHere(s: State, e: Event, s': State)
    requires Inv(s) && Next(s, e, s') && (e.WaitScan?)
    ensures HereOk(s, e, s')
  {
    hide Inv, ForkOk;
    InvAlive(s);
    Mine(s, e.c);
    OtherOk(s, e, s');
  }

  lemma WaitHere(s: State, e: Event, s': State)
    requires Inv(s) && Next(s, e, s') && (e.WaitLock? || e.WaitSleep? || e.WaitReturn?)
    ensures HereOk(s, e, s')
  {
    hide Inv, ParentOk, ForkOk;
    InvAlive(s);
    Mine(s, e.c);
    OtherOk(s, e, s');
  }

  lemma HereKept(s: State, e: Event, s': State)
    requires Inv(s) && Next(s, e, s')
    ensures HereOk(s, e, s')
  {
    hide Inv, HereOk, Next;
    if e.Pick? || e.Wake? || e.Done? {
      PickHere(s, e, s');
    } else if e.Resume? || e.GiveUp? || e.Switch? {
      LeaveHere(s, e, s');
    } else if e.ForkAlloc? || e.ForkParent? || e.ForkRun? {
      ForkHere(s, e, s');
    } else if e.ExitScan? {
      ReparentHere(s, e, s');
    } else if e.WaitScan? {
      ReapHere(s, e, s');
    } else if e.ExitLock? || e.ExitZombie? || e.ExitRelease? {
      ExitHere(s, e, s');
    } else {
      WaitHere(s, e, s');
    }
  }

  lemma SchedKept(s: State, e: Event, s': State)
    requires Inv(s) && Next(s, e, s')
    ensures InitOk(s') && WaitOk(s')
    ensures forall p: nat | p < |s'.procs| :: ProcOk(s', p)
    ensures forall c: nat | c < |s'.cpus| :: CpuOk(s', c)
  {
    hide Inv, Next, ProcOk, CpuOk, Cur, Other, Local;
    StepLocal(s, e, s');
    Frame(s, s', Other(s, e), Cur(s, e), e.c);
    HereKept(s, e, s');
  }

  lemma PickParent(s: State, e: Event, s': State, q: nat)
    requires Inv(s) && Next(s, e, s') && q < |s'.procs| && (e.Pick? || e.Wake? || e.Done?)
    ensures |s'.procs| == |s.procs| && ParentOk(s', q)
  {
    hide Inv, CpuOk, WaitOk, ForkOk;
    InvAlive(s);
    At(s, q);
    Mine(s, e.c);
    OtherOk(s, e, s');
  }

  lemma LeaveParent(s: State, e: Event, s': State, q: nat)
    requires Inv(s) && Next(s, e, s') && q < |s'.procs| && (e.Resume? || e.GiveUp? || e.Switch?)
    ensures |s'.procs| == |s.procs| && ParentOk(s', q)
  {
    hide Inv, CpuOk, WaitOk, ForkOk;
    InvAlive(s);
    At(s, q);
    Mine(s, e.c);
    OtherOk(s, e, s');
  }

  lemma AllocParent(s: State, e: Event, s': State, q: nat)
    requires Inv(s) && Next(s, e, s') && q < |s'.procs| && (e.ForkAlloc?)
    ensures |s'.procs| == |s.procs| && ParentOk(s', q)
  {
    hide Inv, CpuOk, WaitOk;
    InvAlive(s);
    At(s, q);
    Mine(s, e.c);
    OtherOk(s, e, s');
  }

  lemma BirthParent(s: State, e: Event, s': State, q: nat)
    requires Inv(s) && Next(s, e, s') && q < |s'.procs| && (e.ForkParent? || e.ForkRun?)
    ensures |s'.procs| == |s.procs| && ParentOk(s', q)
  {
    hide Inv, CpuOk, WaitOk;
    InvAlive(s);
    At(s, q);
    Mine(s, e.c);
    OtherOk(s, e, s');
  }

  lemma ExitParent(s: State, e: Event, s': State, q: nat)
    requires Inv(s) && Next(s, e, s') && q < |s'.procs| && (e.ExitLock? || e.ExitZombie? || e.ExitRelease?)
    ensures |s'.procs| == |s.procs| && ParentOk(s', q)
  {
    hide Inv, CpuOk, WaitOk, ForkOk;
    InvAlive(s);
    At(s, q);
    Mine(s, e.c);
    OtherOk(s, e, s');
  }

  lemma ReparentParent(s: State, e: Event, s': State, q: nat)
    requires Inv(s) && Next(s, e, s') && q < |s'.procs| && (e.ExitScan?)
    ensures |s'.procs| == |s.procs| && ParentOk(s', q)
  {
    hide Inv, CpuOk, WaitOk, ForkOk;
    InvAlive(s);
    At(s, q);
    Mine(s, e.c);
    OtherOk(s, e, s');
  }

  lemma ReapParent(s: State, e: Event, s': State, q: nat)
    requires Inv(s) && Next(s, e, s') && q < |s'.procs| && (e.WaitScan?)
    ensures |s'.procs| == |s.procs| && ParentOk(s', q)
  {
    hide Inv, CpuOk, WaitOk, ForkOk;
    InvAlive(s);
    At(s, q);
    Mine(s, e.c);
    OtherOk(s, e, s');
  }

  lemma WaitParent(s: State, e: Event, s': State, q: nat)
    requires Inv(s) && Next(s, e, s') && q < |s'.procs| && (e.WaitLock? || e.WaitSleep? || e.WaitReturn?)
    ensures |s'.procs| == |s.procs| && ParentOk(s', q)
  {
    hide Inv, CpuOk, WaitOk, ForkOk;
    InvAlive(s);
    At(s, q);
    Mine(s, e.c);
    OtherOk(s, e, s');
  }

  lemma ParentKept(s: State, e: Event, s': State, q: nat)
    requires Inv(s) && Next(s, e, s') && q < |s'.procs|
    ensures |s'.procs| == |s.procs| && ParentOk(s', q)
  {
    hide Inv, ParentOk, Next;
    if e.Pick? || e.Wake? || e.Done? {
      PickParent(s, e, s', q);
    } else if e.Resume? || e.GiveUp? || e.Switch? {
      LeaveParent(s, e, s', q);
    } else if e.ForkAlloc? {
      AllocParent(s, e, s', q);
    } else if e.ForkParent? || e.ForkRun? {
      BirthParent(s, e, s', q);
    } else if e.ExitScan? {
      ReparentParent(s, e, s', q);
    } else if e.ExitLock? || e.ExitZombie? || e.ExitRelease? {
      ExitParent(s, e, s', q);
    } else if e.WaitScan? {
      ReapParent(s, e, s', q);
    } else {
      WaitParent(s, e, s', q);
    }
  }

  lemma ApartAt(s: State, p: nat, q: nat)
    requires Inv(s) && p < |s.procs| && q < |s.procs|
    ensures ForksApart(s, p, q)
  {
  }

  /** A new process stays new, and only its maker's, until that one makes it runnable. */
  lemma UsedKept(s: State, e: Event, s': State, k: nat)
    requires Inv(s) && Next(s, e, s') && k < |s.procs| && s.procs[k].state == USED
    ensures |s'.procs| == |s.procs| && (s'.procs[k].state == USED || (e.ForkRun? && Other(s, e) == k))
  {
    hide Inv, ParentOk, CpuOk, WaitOk;
    At(s, k);
    Mine(s, e.c);
    OtherOk(s, e, s');
  }

  /** A process starts a fork only by allocating an unused slot, and ends it by making the new
      process runnable. */
  predicate ForkFollows(s: State, e: Event, s': State, p: nat) {
    && |s'.procs| == |s.procs| && p < |s.procs| && Forks(s'.procs[p]) && s'.procs[p].job.child < |s.procs|
    && if Forks(s.procs[p])
       then s'.procs[p].job.child == s.procs[p].job.child && !(e.ForkRun? && e.c < |s.cpus| && s.cpus[e.c] == Run(p))
       else && e.ForkAlloc? && e.c < |s.cpus| && s.cpus[e.c] == Run(p) && s'.procs[p].job.child == e.p
            && e.p < |s.procs| && s.procs[e.p].state == UNUSED && s'.procs[e.p].state == USED
  }

  lemma MoveForks(s: State, e: Event, s': State, p: nat)
    requires Inv(s) && Next(s, e, s') && p < |s'.procs| && Forks(s'.procs[p]) && Moves(e)
    ensures ForkFollows(s, e, s', p)
  {
    hide Inv, ParentOk, CpuOk, WaitOk;
    At(s, p);
  }

  lemma MakeForks(s: State, e: Event, s': State, p: nat)
    requires Inv(s) && Next(s, e, s') && p < |s'.procs| && Forks(s'.procs[p])
    requires e.ForkAlloc? || e.ForkParent? || e.ForkRun?
    ensures ForkFollows(s, e, s', p)
  {
    hide Inv, ParentOk, CpuOk, WaitOk;
    At(s, p);
    Mine(s, e.c);
    OtherOk(s, e, s');
  }

  lemma CallForks(s: State, e: Event, s': State, p: nat)
    requires Inv(s) && Next(s, e, s') && p < |s'.procs| && Forks(s'.procs[p])
    requires !Moves(e) && !(e.ForkAlloc? || e.ForkParent? || e.ForkRun?)
    ensures ForkFollows(s, e, s', p)
  {
    hide Inv, ParentOk, CpuOk, WaitOk;
    At(s, p);
    OtherOk(s, e, s');
  }

  lemma ForksFrom(s: State, e: Event, s': State, p: nat)
    requires Inv(s) && Next(s, e, s') && p < |s'.procs| && Forks(s'.procs[p])
    ensures ForkFollows(s, e, s', p)
  {
    hide Inv, Next, ForkFollows;
    if Moves(e) {
      MoveForks(s, e, s', p);
    } else if e.ForkAlloc? || e.ForkParent? || e.ForkRun? {
      MakeForks(s, e, s', p);
    } else {
      CallForks(s, e, s', p);
    }
  }

  lemma ForkKept(s: State, e: Event, s': State, p: nat)
    requires Inv(s) && Next(s, e, s') && p < |s'.procs|
    ensures |s'.procs| == |s.procs| && ForkOk(s', p)
  {
    StepLocal(s, e, s');
    hide Inv, Next;
    if Forks(s'.procs[p]) {
      ForksFrom(s, e, s', p);
      if Forks(s.procs[p]) {
        At(s, p);
        UsedKept(s, e, s', s.procs[p].job.child);
        if e.ForkRun? {
          RunsFork(s, e, s');
          ApartAt(s, p, s.cpus[e.c].p);
        }
      }
    }
  }

  lemma RunsFork(s: State, e: Event, s': State)
    requires Next(s, e, s') && e.ForkRun?
    ensures Running(s, e.c) && Forks(Me(s, e.c)) && Other(s, e) == Me(s, e.c).job.child
  {
  }

  lemma ApartKept(s: State, e: Event, s': State, p: nat, q: nat)
    requires Inv(s) && Next(s, e, s') && p < |s'.procs| && q < |s'.procs|
    ensures |s'.procs| == |s.procs| && ForksApart(s', p, q)
  {
    StepLocal(s, e, s');
    hide Inv, Next;
    if Forks(s'.procs[p]) && Forks(s'.procs[q]) {
      ForksFrom(s, e, s', p);
      ForksFrom(s, e, s', q);
      At(s, p);
      At(s, q);
      ApartAt(s, p, q);
    }
  }

  lemma NextKeeps(s: State, e: Event, s': State)
    requires Inv(s) && Next(s, e, s')
    ensures Inv(s')
  {
    hide Next, ProcOk, CpuOk, ParentOk, ForkOk, ForksApart;
    SchedKept(s, e, s');
    forall q: nat | q < |s'.procs|
      ensures ParentOk(s', q) && ForkOk(s', q)
    {
      ParentKept(s, e, s', q);
      ForkKept(s, e, s', q);
    }
    forall p: nat, q: nat | p < |s'.procs| && q < |s'.procs|
      ensures ForksApart(s', p, q)
    {
      ApartKept(s, e, s', p, q);
    }
  }

  predicate IsRun(ss: seq<State>, es: seq<Event>) {
    |ss| == |es| + 1 && Boot(ss[0]) && forall i | 0 <= i < |es| :: Next(ss[i], es[i], ss[i + 1])
  }

  lemma {:induction false} RunInv(ss: seq<State>, es: seq<Event>, i: nat)
    requires IsRun(ss, es) && i < |ss|
    ensures Inv(ss[i])
  {
    hide Next, Inv;
    if i > 0 {
      RunInv(ss, es, i - 1);
      NextKeeps(ss[i - 1], es[i - 1], ss[i]);
    } else {
      BootInv(ss[0]);
    }
  }

  /** CPU `c` has `p` as its current process. */
  predicate Current(s: State, c: nat, p: nat) {
    c < |s.cpus| && s.cpus[c] != Idle && s.cpus[c].p == p
  }

  /** At every point of every run: a process is the current one of at most one CPU; if its lock is
      free, it is RUNNING exactly when it is some CPU's current one; and the parent of a process is
      neither a zombie nor an unused slot. */
  lemma SchedulingSafe(ss: seq<State>, es: seq<Event>, i: nat, p: nat)
    requires IsRun(ss, es) && i < |ss| && p < |ss[i].procs|
    ensures forall c: nat, d: nat | Current(ss[i], c, p) && Current(ss[i], d, p) :: c == d
    ensures ss[i].procs[p].lock == None ==> (ss[i].procs[p].state == RUNNING <==> exists c: nat :: Current(ss[i], c, p))
    ensures ss[i].procs[p].parent.Some? ==> Alive(ss[i], ss[i].procs[p].parent.value)
  {
    var s := ss[i];
    RunInv(ss, es, i);
    At(s, p);
    forall c: nat | Current(s, c, p)
      ensures s.procs[p].cpu == Some(c)
    {
      Mine(s, c);
    }
    if s.procs[p].cpu.Some? {
      assert Current(s, s.procs[p].cpu.value, p);
    }
  }

  /** The steps that take a process from one state to the next. */
  predicate Moved(e: Event, x: PState, x': PState) {
    match (x, x')
    case (UNUSED, USED) => e.ForkAlloc?
    case (USED, RUNNABLE) => e.ForkRun?
    case (RUNNABLE, RUNNING) => e.Pick?
    case (RUNNING, RUNNABLE) => e.GiveUp? && !e.asleep
    case (RUNNING, SLEEPING) => (e.GiveUp? && e.asleep) || e.WaitSleep?
    case (SLEEPING, RUNNABLE) => e.Wake?
    case (RUNNING, ZOMBIE) => e.ExitZombie?
    case (ZOMBIE, UNUSED) => e.WaitScan?
    case _ => false
  }

  lemma MovedOn(s: State, e: Event, s': State, p: nat)
    requires Inv(s) && Next(s, e, s') && p < |s.procs| == |s'.procs| && s'.procs[p].state != s.procs[p].state
    ensures Moved(e, s.procs[p].state, s'.procs[p].state)
  {
    OtherOk(s, e, s');
    Mine(s, e.c);
    hide Inv, ParentOk, CpuOk;
  }

  /** In every run, the state of a process changes only along its life cycle, and each change is made by the
      step that is for it. */
  lemma LifeCycle(ss: seq<State>, es: seq<Event>, i: nat, p: nat)
    requires IsRun(ss, es) && i < |es| && p < |ss[i].procs|
    ensures |ss[i + 1].procs| == |ss[i].procs|
    ensures ss[i + 1].procs[p].state == ss[i].procs[p].state
            || Moved(es[i], ss[i].procs[p].state, ss[i + 1].procs[p].state)
  {
    hide Inv, Next, Moved;
    RunInv(ss, es, i);
    SameSize(ss[i], es[i], ss[i + 1]);
    if ss[i + 1].procs[p].state != ss[i].procs[p].state {
      MovedOn(ss[i], es[i], ss[i + 1], p);
    }
  }

  // ----- what `wait` finds -----

  /** Whether one of the first `i` processes is a child of `p`. */
  ghost predicate HasChild(s: State, p: nat, i: nat) {
    exists q: nat :: q < i && q < |s.procs| && s.procs[q].parent == Some(p)
  }

  /** The scan of `wait` has met no zombie child, and knows whether it has met a child. */
  ghost predicate ScanOk(s: State, p: nat)
    requires p < |s.procs|
  {
    var pc := s.procs[p].pc;
    pc.Waiting? ==>
      && pc.i <= |s.procs| && (pc.kids <==> HasChild(s, p, pc.i))
      && forall q: nat | q < pc.i && s.procs[q].parent == Some(p) :: s.procs[q].state != ZOMBIE
  }

  /** A free slot has no parent. */
  predicate SlotOk(s: State, q: nat)
    requires q < |s.procs|
  {
    s.procs[q].state == UNUSED ==> s.procs[q].parent == None
  }

  ghost predicate Scans(s: State) {
    (forall p: nat | p < |s.procs| :: ScanOk(s, p)) && forall q: nat | q < |s.procs| :: SlotOk(s, q)
  }

  lemma SameSize(s: State, e: Event, s': State)
    requires Inv(s) && Next(s, e, s')
    ensures |s'.procs| == |s.procs|
  {
    StepLocal(s, e, s');
  }

  /** Nothing that the scan looks at has changed. */
  predicate ChildKept(s: State, s': State, q: nat)
    requires q < |s.procs| == |s'.procs|
  {
    s'.procs[q].parent == s.procs[q].parent && (s'.procs[q].state == ZOMBIE <==> s.procs[q].state == ZOMBIE)
  }

  /** While one process has `wait_lock`, no other makes a zombie or changes a parent. */
  lemma OthersWait(s: State, e: Event, s': State, q: nat)
    requires Inv(s) && Scans(s) && Next(s, e, s') && s.waitLock.Some? && (s.waitLock != Some(e.c) || e.Wake?)
    requires q < |s.procs|
    ensures |s'.procs| == |s.procs| && ChildKept(s, s', q)
  {
    assert SlotOk(s, q);
    hide Scans;
    Mine(s, e.c);
    OtherOk(s, e, s');
    hide Inv;
  }

  lemma ScanFrame(s: State, s': State, p: nat)
    requires p < |s.procs| == |s'.procs| && ScanOk(s, p) && s'.procs[p].pc == s.procs[p].pc
    requires forall q: nat | q < |s.procs| :: ChildKept(s, s', q)
    ensures ScanOk(s', p)
  {
    forall q: nat | q < |s.procs|
      ensures s'.procs[q].parent == s.procs[q].parent && (s'.procs[q].state == ZOMBIE <==> s.procs[q].state == ZOMBIE)
    {
      assert ChildKept(s, s', q);
    }
  }

  /** One more process has been looked at. */
  lemma ScanStep(s: State, c: nat, s': State)
    requires Running(s, c) && WaitScanStep(s, c, s') && ScanOk(s, s.cpus[c].p)
    ensures ScanOk(s', s.cpus[c].p)
  {
    var p, i := s.cpus[c].p, Me(s, c).pc.i;
    if s'.procs[p].pc.Waiting? {
      assert forall q: nat | q < |s.procs| :: s'.procs[q].parent == s.procs[q].parent;
      assert HasChild(s', p, i + 1) <==> HasChild(s, p, i) || s.procs[i].parent == Some(p);
    }
  }

  /** A process goes on scanning only by its own step. */
  lemma WhoScans(s: State, e: Event, s': State, p: nat)
    requires Inv(s) && Next(s, e, s') && p < |s.procs| == |s'.procs| && s'.procs[p].pc.Waiting?
    ensures e.WaitLock? || e.WaitScan? ==>
              Running(s, e.c) && (p == s.cpus[e.c].p || s.procs[p].pc == s'.procs[p].pc)
    ensures !(e.WaitLock? || e.WaitScan?) ==> s.procs[p].pc == s'.procs[p].pc
  {
    OtherOk(s, e, s');
    hide Inv, ParentOk, ForkOk, ProcOk;
  }

  /** Whoever scans has `wait_lock`. */
  lemma ScannerLocks(s: State, e: Event, s': State, p: nat)
    requires Inv(s) && Next(s, e, s') && p < |s.procs| == |s'.procs| && s.procs[p].pc.Waiting?
    requires s.procs[p].pc == s'.procs[p].pc
    ensures s.waitLock.Some?
    ensures s.waitLock == Some(e.c) ==> e.Wake? || (Running(s, e.c) && p == s.cpus[e.c].p && e.WaitScan?)
  {
    At(s, p);
    Mine(s, e.c);
    hide Inv, ParentOk, ForkOk;
  }

  lemma ScanKept(s: State, e: Event, s': State, p: nat)
    requires Inv(s) && Scans(s) && Next(s, e, s') && p < |s.procs| == |s'.procs|
    ensures ScanOk(s', p)
  {
    assert ScanOk(s, p);
    if s'.procs[p].pc.Waiting? {
      WhoScans(s, e, s', p);
      if s.procs[p].pc == s'.procs[p].pc {
        ScannerLocks(s, e, s', p);
      }
      if (e.WaitLock? || e.WaitScan?) && p == s.cpus[e.c].p {
        hide Inv, Scans;
        if e.WaitScan? {
          ScanStep(s, e.c, s');
        }
      } else {
        forall q: nat | q < |s.procs|
          ensures ChildKept(s, s', q)
        {
          OthersWait(s, e, s', q);
        }
        hide Inv, Scans, Next;
        ScanFrame(s, s', p);
      }
    }
  }

  lemma SlotKept(s: State, e: Event, s': State, q: nat)
    requires Inv(s) && Scans(s) && Next(s, e, s') && q < |s.procs| == |s'.procs|
    ensures SlotOk(s', q)
  {
    assert SlotOk(s, q);
    hide Scans;
    OtherOk(s, e, s');
    hide Inv, ParentOk, ProcOk, CpuOk;
  }

  lemma {:induction false} RunScans(ss: seq<State>, es: seq<Event>, i: nat)
    requires IsRun(ss, es) && i < |ss|
    ensures Inv(ss[i]) && Scans(ss[i])
  {
    RunInv(ss, es, i);
    if i > 0 {
      RunScans(ss, es, i - 1);
      var s, e, s' := ss[i - 1], es[i - 1], ss[i];
      SameSize(s, e, s');
      hide Inv, Next, ScanOk, SlotOk;
      forall p: nat | p < |s'.procs|
        ensures ScanOk(s', p) && SlotOk(s', p)
      {
        ScanKept(s, e, s', p);
        SlotKept(s, e, s', p);
      }
    }
  }

  // ----- families -----

  /** A process that has been made and is not init has a parent. What `fork` has made is its caller's child. */
  predicate FamilyOk(s: State, q: nat)
    requires q < |s.procs|
  {
    && (q != INIT && s.procs[q].state != UNUSED && s.procs[q].state != USED ==> s.procs[q].parent.Some?)
    && ForkChildOk(s, q)
    && (s.procs[q].pc.Exiting? ==> s.procs[q].job == NoJob)
  }

  predicate Families(s: State) {
    forall q: nat | q < |s.procs| :: FamilyOk(s, q)
  }

  predicate ForkChildOk(s: State, q: nat)
    requires q < |s.procs|
  {
    s.procs[q].job.Forked? && s.procs[q].job.child < |s.procs| ==> s.procs[s.procs[q].job.child].parent == Some(q)
  }

  lemma ChildStays(s: State, e: Event, s': State, q: nat)
    requires Inv(s) && Next(s, e, s') && q < |s.procs| == |s'.procs| && FamilyOk(s, q) && !e.ForkParent? && !e.ExitScan?
    ensures ForkChildOk(s', q)
  {
    At(s, q);
    OtherOk(s, e, s');
    hide Inv, CpuOk, ParentOk, ProcOk;
  }

  lemma ChildGiven(s: State, e: Event, s': State, q: nat)
    requires Inv(s) && Families(s) && Next(s, e, s') && q < |s.procs| == |s'.procs| && (e.ForkParent? || e.ExitScan?)
    ensures ForkChildOk(s', q)
  {
    assert FamilyOk(s, q);
    At(s, q);
    Mine(s, e.c);
    if Running(s, e.c) {
      ApartAt(s, q, s.cpus[e.c].p);
      assert FamilyOk(s, s.cpus[e.c].p);
    }
    hide Inv, Families, CpuOk, ParentOk, ProcOk;
  }

  lemma BornKept(s: State, e: Event, s': State, q: nat)
    requires Inv(s) && Families(s) && Next(s, e, s') && q < |s.procs| == |s'.procs|
    requires q != INIT && s'.procs[q].state != UNUSED && s'.procs[q].state != USED
    ensures s'.procs[q].parent.Some?
  {
    assert FamilyOk(s, q);
    OtherOk(s, e, s');
    Mine(s, e.c);
    if Running(s, e.c) {
      assert FamilyOk(s, s.cpus[e.c].p);
    }
    hide Inv, Families, CpuOk, ParentOk, FamilyOk;
  }

  lemma ExitingKept(s: State, e: Event, s': State, q: nat)
    requires Inv(s) && q < |s.procs| == |s'.procs| && FamilyOk(s, q) && Next(s, e, s') && s'.procs[q].pc.Exiting?
    ensures s'.procs[q].job == NoJob
  {
    OtherOk(s, e, s');
    hide Inv, CpuOk, ParentOk;
  }

  lemma FamilyKept(s: State, e: Event, s': State, q: nat)
    requires Inv(s) && Families(s) && Next(s, e, s') && q < |s.procs| == |s'.procs|
    ensures FamilyOk(s', q)
  {
    hide Inv, Next;
    assert FamilyOk(s, q);
    if e.ForkParent? || e.ExitScan? {
      ChildGiven(s, e, s', q);
    } else {
      ChildStays(s, e, s', q);
    }
    if q != INIT && s'.procs[q].state != UNUSED && s'.procs[q].state != USED {
      BornKept(s, e, s', q);
    }
    if s'.procs[q].pc.Exiting? {
      ExitingKept(s, e, s', q);
    }
  }

  /** In every run, every process but init that has been made has a parent, which is alive; and the parent of
      the new process of a `fork` is its caller until it can run. */
  lemma FamilySafe(ss: seq<State>, es: seq<Event>, i: nat, q: nat)
    requires IsRun(ss, es) && i < |ss| && q < |ss[i].procs|
    ensures q != INIT && ss[i].procs[q].state != UNUSED && ss[i].procs[q].state != USED ==>
              ss[i].procs[q].parent.Some? && Alive(ss[i], ss[i].procs[q].parent.value)
    ensures i < |es| && es[i].ForkRun? ==>
              Running(ss[i], es[i].c) && (Me(ss[i], es[i].c).job == Forked(q) ==>
                ss[i].procs[q].parent == Some(ss[i].cpus[es[i].c].p) && q < |ss[i + 1].procs|
                && ss[i + 1].procs[q].state == RUNNABLE)
  {
    RunInv(ss, es, i);
    RunFamilies(ss, es, i);
    At(ss[i], q);
    assert FamilyOk(ss[i], q);
    hide Inv, ProcOk, ForkOk;
    if i < |es| && es[i].ForkRun? {
      assert Next(ss[i], es[i], ss[i + 1]);
      assert FamilyOk(ss[i], ss[i].cpus[es[i].c].p);
    }
  }

  lemma {:induction false} RunFamilies(ss: seq<State>, es: seq<Event>, i: nat)
    requires IsRun(ss, es) && i < |ss|
    ensures Families(ss[i])
  {
    if i > 0 {
      hide Inv, Next, FamilyOk;
      var s, e, s' := ss[i - 1], es[i - 1], ss[i];
      RunInv(ss, es, i - 1);
      SameSize(s, e, s');
      RunFamilies(ss, es, i - 1);
      forall q: nat | q < |s'.procs|
        ensures FamilyOk(s', q)
      {
        FamilyKept(s, e, s', q);
      }
    }
  }

  // ----- what `wait` does -----

  /** In every run, `wait` goes to sleep only when it has a child and none of its children is a zombie, and
      it says that there are no children only when there are none. */
  lemma WaitExact(ss: seq<State>, es: seq<Event>, i: nat)
    requires IsRun(ss, es) && i < |es| && (es[i].WaitSleep? || (es[i].WaitReturn? && es[i].why == NoKids))
    ensures Running(ss[i], es[i].c)
    ensures var s, p := ss[i], ss[i].cpus[es[i].c].p;
            && (forall q: nat | q < |s.procs| && s.procs[q].parent == Some(p) :: s.procs[q].state != ZOMBIE)
            && (es[i].WaitSleep? <==> HasChild(s, p, |s.procs|))
  {
    RunScans(ss, es, i);
    assert Next(ss[i], es[i], ss[i + 1]);
    assert ScanOk(ss[i], ss[i].cpus[es[i].c].p);
  }

  /** In every run, a process slot becomes free exactly when its parent's scan comes to it and finds a zombie;
      and that `wait` is then over. */
  lemma ReapExact(ss: seq<State>, es: seq<Event>, i: nat, z: nat)
    requires IsRun(ss, es) && i < |es| && z < |ss[i].procs| && ss[i].procs[z].state != UNUSED
    ensures |ss[i + 1].procs| == |ss[i].procs|
    ensures ss[i + 1].procs[z].state == UNUSED <==>
              && es[i].WaitScan? && Running(ss[i], es[i].c) && Me(ss[i], es[i].c).pc.Waiting?
              && Me(ss[i], es[i].c).pc.i == z && ss[i].procs[z].parent == Some(ss[i].cpus[es[i].c].p)
              && ss[i].procs[z].state == ZOMBIE
    ensures ss[i + 1].procs[z].state == UNUSED ==>
              && ss[i + 1].procs[ss[i].cpus[es[i].c].p].pc == Code && ss[i + 1].waitLock == None
              && ss[i + 1].procs[z] == FREED
  {
    RunInv(ss, es, i);
    hide Inv;
    ReapStep(ss[i], es[i], ss[i + 1], z);
  }

  lemma ReapStep(s: State, e: Event, s': State, z: nat)
    requires Inv(s) && Next(s, e, s') && z < |s.procs| && s.procs[z].state != UNUSED
    ensures |s'.procs| == |s.procs|
    ensures s'.procs[z].state == UNUSED <==>
              && e.WaitScan? && Running(s, e.c) && Me(s, e.c).pc.Waiting? && Me(s, e.c).pc.i == z
              && s.procs[z].parent == Some(s.cpus[e.c].p) && s.procs[z].state == ZOMBIE
    ensures s'.procs[z].state == UNUSED ==>
              s'.procs[s.cpus[e.c].p].pc == Code && s'.waitLock == None && s'.procs[z] == FREED
  {
    OtherOk(s, e, s');
    Mine(s, e.c);
    hide Inv, ParentOk, ForkOk, CpuOk;
  }

  /** A zombie that `wait` frees is no CPU's current process, and is no process's parent. */
  lemma ReapSafe(ss: seq<State>, es: seq<Event>, i: nat)
    requires IsRun(ss, es) && i < |es| && es[i].WaitScan?
    ensures var z := Other(ss[i], es[i]);
            z < |ss[i].procs| == |ss[i + 1].procs|
                && (ss[i + 1].procs[z].state == UNUSED && ss[i].procs[z].state != UNUSED ==>
              && ss[i].procs[z].state == ZOMBIE && (forall c: nat :: !Current(ss[i], c, z))
              && forall q: nat | q < |ss[i].procs| :: ss[i].procs[q].parent != Some(z))
  {
    var s, z := ss[i], Other(ss[i], es[i]);
    RunInv(ss, es, i);
    assert Next(s, es[i], ss[i + 1]);
    OtherOk(s, es[i], ss[i + 1]);
    Mine(s, es[i].c);
    forall c: nat | Current(s, c, z)
      ensures s.procs[z].cpu == Some(c)
    {
      Mine(s, c);
    }
    forall q: nat | q < |s.procs| && s.procs[q].parent == Some(z)
      ensures Alive(s, z)
    {
      At(s, q);
    }
  }
}
