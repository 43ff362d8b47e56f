/** Pipes: any number of processes reading, writing and closing one pipe, interleaved, with the
    32-bit counters of the source. */
module Pipe {
  import opened Basics
  import opened Monitor
  import opened Words

  const PIPESIZE: nat := 512
  const WRAP: nat := 0x1_0000_0000

  /** `struct pipe`; the history is what has been written, `sent`, and read, `got`. */
  datatype Data = Data(ring: seq<Byte>, nread: nat, nwrite: nat, readopen: bool, writeopen: bool,
                       sent: seq<Byte>, got: seq<Byte>)

  /** The two channels, `&pi->nread` and `&pi->nwrite`. */
  const RD: nat := 0
  const WR: nat := 1

  predicate Empty(d: Data) {
    d.nread == d.nwrite
  }

  /** The ring is full, in unsigned 32-bit arithmetic. */
  predicate Full(d: Data) {
    d.nwrite == (d.nread + PIPESIZE) % WRAP
  }

  /** What a process sleeping on `chan` waits for. */
  predicate Cond(chan: nat, d: Data) {
    (chan == RD && !(Empty(d) && d.writeopen)) || (chan == WR && !(Full(d) && d.readopen))
  }

  function Put(d: Data, b: Byte): Data
    requires |d.ring| == PIPESIZE
  {
    d.(ring := d.ring[d.nwrite % PIPESIZE := b], nwrite := (d.nwrite + 1) % WRAP, sent := d.sent + [b])
  }

  function Take(d: Data): Data
    requires |d.ring| == PIPESIZE
  {
    d.(nread := (d.nread + 1) % WRAP, got := d.got + [d.ring[d.nread % PIPESIZE]])
  }

  function Shutdown(d: Data, write: bool): Data {
    if write then d.(writeopen := false) else d.(readopen := false)
  }

  // ----- the bytes -----

  /** What is read is a prefix of what is written; the ring holds the rest. The counters agree with
      the true totals up to wrap-around. */
  predicate DataOk(d: Data) {
    && |d.ring| == PIPESIZE
    && d.nread == |d.got| % WRAP && d.nwrite == |d.sent| % WRAP
    && |d.got| <= |d.sent| <= |d.got| + PIPESIZE
    && d.got == d.sent[..|d.got|]
    && forall k | |d.got| <= k < |d.sent| :: d.ring[k % PIPESIZE] == d.sent[k]
  }

  /** The tests on the wrapped counters are right about the true totals. */
  lemma TestsRight(d: Data)
    requires DataOk(d)
    ensures Empty(d) <==> |d.got| == |d.sent|
    ensures Full(d) <==> |d.sent| == |d.got| + PIPESIZE
  {
    SameMod(|d.got|, |d.sent|);
    SameMod(|d.sent|, |d.got| + PIPESIZE);
  }

  lemma SameMod(a: nat, b: nat)
    requires a <= b < a + WRAP
    ensures a % WRAP == b % WRAP <==> a == b
  {
  }

  lemma RingIndex(k: nat)
    ensures k % WRAP % PIPESIZE == k % PIPESIZE && (k % WRAP + 1) % WRAP == (k + 1) % WRAP
  {
    assert k == k / WRAP * WRAP + k % WRAP;
    assert k / WRAP * WRAP == k / WRAP * 0x80_0000 * PIPESIZE;
  }

  lemma PutOk(d: Data, b: Byte)
    requires DataOk(d) && !Full(d)
    ensures DataOk(Put(d, b))
  {
    TestsRight(d);
    RingIndex(|d.sent|);
    forall k | |d.got| <= k < |d.sent|
      ensures Put(d, b).ring[k % PIPESIZE] == d.sent[k]
    {
      Apart(k, |d.sent|);
    }
  }

  lemma Apart(j: nat, k: nat)
    requires j < k < j + PIPESIZE
    ensures j % PIPESIZE != k % PIPESIZE
  {
  }

  lemma TakeOk(d: Data)
    requires DataOk(d) && !Empty(d)
    ensures DataOk(Take(d))
  {
    TestsRight(d);
    RingIndex(|d.got|);
  }

  // ----- the programs -----

  /** Where a process is. Enter takes the pipe's lock and goes on at `next`; Wake calls
      `wakeup(chan)` and Scanning is inside it; Doze calls `sleep(chan)` and Sleeping is inside it;
      Exit releases the lock. WCheck and WPut are the loop of `pipewrite` with `rest` still to write,
      RCheck and RCopy the two loops of `piperead`, Shut is `pipeclose`. */
  datatype Pc =
    | Idle
    | Enter(next: Pc)
    | Wake(chan: nat, next: Pc)
    | Scanning(next: Pc)
    | Doze(chan: nat, next: Pc)
    | Sleeping(next: Pc)
    | Exit
    | WCheck(rest: seq<Byte>)
    | WPut(rest: seq<Byte>)
    | RCheck(n: nat)
    | RCopy(n: nat)
    | Shut(write: bool)

  /** A call of `pipewrite` or `piperead` by process `p`: the bytes it was given, or how many it asked for. */
  datatype Writing = Writing(p: nat, data: seq<Byte>)
  datatype Reading = Reading(p: nat, n: nat)

  /** The calls made so far; which call each byte sent and each byte got belongs to; and the number of each
      process's last call. */
  datatype History = History(given: seq<Writing>, asked: seq<Reading>, sentBy: seq<nat>, gotBy: seq<nat>,
      call: seq<nat>)

  datatype Prog = Prog(m: State<Data>, pc: seq<Pc>, killed: set<nat>, h: History)

  /** A step of the lock, sleep and wakeup machinery; a step within a program; or `kill` of a process
      that is not asleep. */
  datatype Action = Does(e: Event<Data>) | Move(p: nat) | Mark(p: nat)

  /** The program steps that touch nothing shared. */
  predicate Moves(s: Prog, p: nat, to: Pc)
    requires p < |s.pc|
  {
    var d := s.m.d;
    match s.pc[p]
    case Idle => to.Enter? && (to.next.WCheck? || to.next.RCheck? || to.next.Shut?)
    case WCheck(rest) =>
      if rest == [] then to == Wake(RD, Exit)
      else if !d.readopen || p in s.killed then to == Exit
      else if Full(d) then to == Wake(RD, Doze(WR, WCheck(rest)))
      else to == WPut(rest) || to == Wake(RD, Exit)
    case RCheck(n) =>
      if Empty(d) && d.writeopen then to == if p in s.killed then Exit else Doze(RD, RCheck(n))
      else to == RCopy(n)
    case RCopy(n) => (n == 0 || Empty(d)) && to == Wake(WR, Exit)
    case _ => false
  }

  /** The program steps that go with a step of the machinery. */
  predicate Step(s: Prog, e: Event<Data>, to: Pc)
    requires e.t < |s.pc|
  {
    var at, d := s.pc[e.t], s.m.d;
    match e
    case Acquire(t) => at.Enter? && to == at.next
    case Release(t) => at == Exit && to == Idle
    case WakeStart(t, chan) => at.Wake? && chan == at.chan && to == Scanning(at.next)
    case WakeStep(t) => at.Scanning? && to == at
    case WakeEnd(t) => at.Scanning? && to == at.next
    case SleepStart(t, chan) => at.Doze? && chan == at.chan && to == Sleeping(at.next)
    case SleepRelease(t) => at.Sleeping? && to == at
    case SleepMark(t) => at.Sleeping? && to == at
    case SleepSwitch(t) => at.Sleeping? && to == at
    case Resume(t) => at.Sleeping? && to == Enter(at.next)
    case Kill(t) => to == at
    case Update(t, d', owed) =>
      && |d.ring| == PIPESIZE
      && match at
         case WPut(rest) => rest != [] && d' == Put(d, rest[0]) && owed == s.m.owed + {RD} && to == WCheck(rest[1..])
         case RCopy(n) =>
           && n > 0 && !Empty(d) && d' == Take(d) && owed == s.m.owed + {WR}
           && (to == RCopy(n - 1) || to == Wake(WR, Exit))
         case Shut(write) =>
           var chan := if write then RD else WR;
           d' == Shutdown(d, write) && owed == s.m.owed + {chan} && to == Wake(chan, Exit)
         case _ => false
  }

  /** What a step of process `p`, which is at `at` and goes on at `to`, adds to the history. */
  function Record(h: History, p: nat, at: Pc, to: Pc, put: bool): History
    requires p < |h.call|
  {
    if at.Idle? && to.Enter? && to.next.WCheck? then
      h.(given := h.given + [Writing(p, to.next.rest)], call := h.call[p := |h.given|])
    else if at.Idle? && to.Enter? && to.next.RCheck? then
      h.(asked := h.asked + [Reading(p, to.next.n)], call := h.call[p := |h.asked|])
    else if put && at.WPut? then h.(sentBy := h.sentBy + [h.call[p]])
    else if put && at.RCopy? then h.(gotBy := h.gotBy + [h.call[p]])
    else h
  }

  predicate Next(s: Prog, a: Action, s': Prog) {
    && |s.pc| == |s.m.mode| == |s.h.call| && |s'.pc| == |s.pc|
    && match a
       case Does(e) =>
         && Enabled(s.m, e) && s'.m == Effect(s.m, e) && s'.pc == s.pc[e.t := s'.pc[e.t]] && Step(s, e, s'.pc[e.t])
         && s'.killed == (if e.Kill? then s.killed + {e.t} else s.killed)
         && s'.h == Record(s.h, e.t, s.pc[e.t], s'.pc[e.t], e.Update?)
       case Move(p) =>
         && p < |s.pc| && s.m.mode[p] == Running && Moves(s, p, s'.pc[p])
         && s' == s.(pc := s.pc[p := s'.pc[p]], h := Record(s.h, p, s.pc[p], s'.pc[p], false))
       case Mark(p) => p < |s.pc| && s' == s.(killed := s.killed + {p})
  }

  predicate Start(s: Prog) {
    && Monitor.Start(s.m) && |s.pc| == |s.m.mode| == |s.h.call| && s.killed == {}
    && s.h == History([], [], [], [], s.h.call)
    && s.m.d == Data(s.m.d.ring, 0, 0, true, true, [], []) && |s.m.d.ring| == PIPESIZE
    && forall p | 0 <= p < |s.pc| :: s.pc[p] == Idle
  }

  // ----- what every reachable state satisfies -----

  predicate HasLock(pc: Pc) {
    !pc.Idle? && !pc.Enter? && !pc.Sleeping?
  }

  /** Where a program may go on with the lock held. */
  predicate Ready(d: Data, pc: Pc) {
    match pc
    case Doze(chan, next) => !Cond(chan, d) && (next.WCheck? || next.RCheck?)
    case Exit => true
    case _ => false
  }

  predicate Reentry(pc: Pc) {
    pc.WCheck? || pc.RCheck? || pc.Shut?
  }

  /** What holds of the program of the process that has the lock. */
  predicate AtOk(s: Prog, p: nat)
    requires p < |s.pc|
  {
    var d, owed := s.m.d, s.m.owed;
    match s.pc[p]
    case Wake(chan, next) => owed <= {chan} && Ready(d, next)
    case Scanning(next) => owed == {} && Ready(d, next)
    case Doze(chan, next) => owed == {} && Ready(d, s.pc[p])
    case Exit => forall c | c in owed :: NobodyWaits(s.m, c)
    case WCheck(rest) => owed <= {RD} && (owed != {} ==> d.readopen && Cond(RD, d))
    case WPut(rest) => rest != [] && owed <= {RD} && d.readopen && !Full(d) && (owed != {} ==> Cond(RD, d))
    case RCheck(n) => owed == {}
    case RCopy(n) => owed <= {WR}
    case Shut(write) => owed == {}
    case _ => true
  }

  predicate ProcOk(s: Prog, p: nat)
    requires p < |s.pc| == |s.m.mode|
  {
    var pc := s.pc[p];
    && (HasLock(pc) ==> s.m.lk == Some(p) && s.m.mode[p] == Running && AtOk(s, p) && s.m.scan.Some? == pc.Scanning?)
    && (s.m.lk == Some(p) ==> HasLock(pc) || (pc.Sleeping? && s.m.mode[p].Locking?))
    && (!pc.Sleeping? ==> s.m.mode[p] == Running)
    && (s.m.mode[p].Locking? ==> s.m.lk == Some(p))
    && (pc.Enter? || pc.Sleeping? ==> Reentry(pc.next))
  }

  predicate Inv(s: Prog) {
    && |s.pc| == |s.m.mode| && DataOk(s.m.d) && Monitor.Inv(Cond, s.m)
    && forall p: nat | p < |s.pc| :: ProcOk(s, p)
  }

  predicate ReaderWaits(s: Prog) {
    exists q: nat :: q < |s.m.mode| && Waits(s.m.mode[q], RD)
  }

  /** The killed return of `pipewrite` after it has put bytes in the pipe that it has woken nobody for,
      while a reader waits. */
  predicate Abandons(s: Prog, a: Action) {
    && a.Move? && a.p < |s.pc| && s.pc[a.p].WCheck? && s.pc[a.p].rest != [] && a.p in s.killed
    && RD in s.m.owed && ReaderWaits(s)
  }

  lemma DoesProper(s: Prog, e: Event<Data>, s': Prog)
    requires Inv(s) && Next(s, Does(e), s')
    ensures Proper(Cond, s.m, e)
  {
    assert ProcOk(s, e.t);
  }

  /** While a process has the lock, no other starts to wait. */
  lemma WaitersShrink(m: State<Data>, e: Event<Data>, p: nat)
    requires Enabled(m, e) && m.lk == Some(p) && e.t != p
    requires forall q: nat | q < |m.mode| && m.mode[q].Locking? :: m.lk == Some(q)
    ensures forall c | NobodyWaits(m, c) :: NobodyWaits(Effect(m, e), c)
  {
    forall c | NobodyWaits(m, c)
      ensures NobodyWaits(Effect(m, e), c)
    {
      assert !Waits(m.mode[e.t], c);
    }
  }

  lemma DoesData(s: Prog, e: Event<Data>, s': Prog)
    requires Inv(s) && Next(s, Does(e), s')
    ensures DataOk(s'.m.d)
  {
    assert ProcOk(s, e.t);
    if e.Update? {
      if s.pc[e.t].WPut? {
        PutOk(s.m.d, s.pc[e.t].rest[0]);
      } else if s.pc[e.t].RCopy? {
        TakeOk(s.m.d);
      }
    }
  }

  lemma DoesKeeps(s: Prog, e: Event<Data>, s': Prog)
    requires Inv(s) && Next(s, Does(e), s')
    ensures Inv(s')
  {
    DoesProper(s, e, s');
    Monitor.NextKeeps(Cond, s.m, e, s'.m);
    DoesData(s, e, s');
    hide DataOk, Monitor.Inv;
    DoesSelf(s, e, s');
    forall p: nat | p < |s'.pc| && p != e.t
      ensures ProcOk(s', p)
    {
      DoesOther(s, e, s', p);
    }
  }

  lemma DoesSelf(s: Prog, e: Event<Data>, s': Prog)
    requires Inv(s) && Next(s, Does(e), s')
    ensures ProcOk(s', e.t)
  {
    assert ProcOk(s, e.t);
    if e.Update? && s.pc[e.t].WPut? {
      PutFills(s.m.d, s.pc[e.t].rest[0]);
    }
    hide DataOk, Empty, Full;
  }

  /** A byte just put can be read. */
  lemma PutFills(d: Data, b: Byte)
    requires DataOk(d) && !Full(d)
    ensures Cond(RD, Put(d, b))
  {
    PutOk(d, b);
    TestsRight(Put(d, b));
  }

  lemma DoesOther(s: Prog, e: Event<Data>, s': Prog, p: nat)
    requires Inv(s) && Next(s, Does(e), s') && p < |s'.pc| && p != e.t
    ensures ProcOk(s', p)
  {
    hide DataOk, Empty, Full, AtOk;
    assert ProcOk(s, e.t) && ProcOk(s, p);
    if HasLock(s.pc[p]) {
      WaitersShrink(s.m, e, p);
      hide NobodyWaits;
      AtKept(s, s', p);
    }
  }

  /** What a program relies on does not depend on the other processes. */
  lemma AtKept(s: Prog, s': Prog, p: nat)
    requires p < |s.pc| && |s'.pc| == |s.pc| && s'.pc[p] == s.pc[p]
    requires s'.m.d == s.m.d && s'.m.owed == s.m.owed && forall c | NobodyWaits(s.m, c) :: NobodyWaits(s'.m, c)
    ensures AtOk(s, p) ==> AtOk(s', p)
  {
    hide NobodyWaits, Cond, Full;
  }

  lemma MoveKeeps(s: Prog, p: nat, s': Prog)
    requires Inv(s) && Next(s, Move(p), s') && !Abandons(s, Move(p))
    ensures Inv(s')
  {
    hide DataOk, Monitor.Inv;
    assert ProcOk(s, p);
    forall q: nat | q < |s'.pc|
      ensures ProcOk(s', q)
    {
      assert ProcOk(s, q);
      if q != p {
        AtKept(s, s', q);
      }
    }
  }

  lemma MarkKeeps(s: Prog, p: nat, s': Prog)
    requires Inv(s) && Next(s, Mark(p), s')
    ensures Inv(s')
  {
    hide DataOk, Monitor.Inv;
    forall q: nat | q < |s'.pc|
      ensures ProcOk(s', q)
    {
      assert ProcOk(s, q);
      AtKept(s, s', q);
    }
  }

  lemma NextKeeps(s: Prog, a: Action, s': Prog)
    requires Inv(s) && Next(s, a, s') && !Abandons(s, a)
    ensures Inv(s')
  {
    match a
    case Does(e) => DoesKeeps(s, e, s');
    case Move(p) => MoveKeeps(s, p, s');
    case Mark(p) => MarkKeeps(s, p, s');
  }

  predicate IsRun(ss: seq<Prog>, actions: seq<Action>) {
    |ss| == |actions| + 1 && Start(ss[0]) && forall i | 0 <= i < |actions| :: Next(ss[i], actions[i], ss[i + 1])
  }

  lemma {:induction false} RunInv(ss: seq<Prog>, actions: seq<Action>, i: nat)
    requires IsRun(ss, actions) && i < |ss| && forall j | 0 <= j < i :: !Abandons(ss[j], actions[j])
    ensures Inv(ss[i])
  {
    hide Abandons;
    if i > 0 {
      RunInv(ss, actions, i - 1);
      NextKeeps(ss[i - 1], actions[i - 1], ss[i]);
    }
  }

  /** At every point of every run up to which no killed writer has abandoned a waiting reader: the bytes
      read are a prefix of the bytes written, and no reader or writer sleeps although it could go on,
      unless the holder of the pipe's lock has yet to wake it. */
  lemma PipeSafe(ss: seq<Prog>, actions: seq<Action>, i: nat, p: nat, chan: nat)
    requires IsRun(ss, actions) && i < |ss| && forall j | 0 <= j < i :: !Abandons(ss[j], actions[j])
    ensures ss[i].m.d.got <= ss[i].m.d.sent && |ss[i].m.d.sent| <= |ss[i].m.d.got| + PIPESIZE
    ensures p < |ss[i].m.mode| && Waits(ss[i].m.mode[p], chan) && Cond(chan, ss[i].m.d) ==> YetToScan(ss[i].m, p, chan)
  {
    RunInv(ss, actions, i);
    assert p < |ss[i].m.mode| ==> NotLost(Cond, ss[i].m, p);
  }

  // ----- the bytes, whoever is killed -----

  /** Where a program goes on after `wakeup`. */
  predicate AfterWake(pc: Pc) {
    pc.Exit? || (pc.Doze? && Reentry(pc.next))
  }

  predicate ProcBytes(s: Prog, p: nat)
    requires p < |s.pc| == |s.m.mode|
  {
    var pc := s.pc[p];
    && (HasLock(pc) ==> s.m.lk == Some(p) && s.m.mode[p] == Running)
    && (s.m.lk == Some(p) ==> HasLock(pc) || (pc.Sleeping? && s.m.mode[p].Locking?))
    && (!pc.Sleeping? ==> s.m.mode[p] == Running)
    && (s.m.mode[p].Locking? ==> s.m.lk == Some(p))
    && (pc.WPut? ==> pc.rest != [] && !Full(s.m.d))
    && (pc.Enter? || pc.Sleeping? || pc.Doze? ==> Reentry(pc.next))
    && (pc.Wake? || pc.Scanning? ==> AfterWake(pc.next))
  }

  predicate BytesInv(s: Prog) {
    |s.pc| == |s.m.mode| && DataOk(s.m.d) && forall p: nat | p < |s.pc| :: ProcBytes(s, p)
  }

  lemma BytesData(s: Prog, e: Event<Data>, s': Prog)
    requires BytesInv(s) && Next(s, Does(e), s')
    ensures DataOk(s'.m.d)
  {
    assert ProcBytes(s, e.t);
    if e.Update? {
      if s.pc[e.t].WPut? {
        PutOk(s.m.d, s.pc[e.t].rest[0]);
      } else if s.pc[e.t].RCopy? {
        TakeOk(s.m.d);
      }
    }
  }

  lemma BytesKept(s: Prog, a: Action, s': Prog)
    requires BytesInv(s) && Next(s, a, s')
    ensures BytesInv(s')
  {
    if a.Does? {
      BytesData(s, a.e, s');
    }
    hide DataOk, Empty;
    forall p: nat | p < |s'.pc|
      ensures ProcBytes(s', p)
    {
      assert ProcBytes(s, p);
      if a.Does? {
        assert ProcBytes(s, a.e.t);
      }
    }
  }

  /** At every point of every run, the bytes read are a prefix of the bytes written, at most
      PIPESIZE of which are still to be read. */
  lemma {:induction false} BytesInOrder(ss: seq<Prog>, actions: seq<Action>, i: nat)
    requires IsRun(ss, actions) && i < |ss|
    ensures BytesInv(ss[i]) && ss[i].m.d.got <= ss[i].m.d.sent && |ss[i].m.d.sent| <= |ss[i].m.d.got| + PIPESIZE
  {
    if i > 0 {
      BytesInOrder(ss, actions, i - 1);
      BytesKept(ss[i - 1], actions[i - 1], ss[i]);
    }
  }

  // ----- a writer killed partway through -----

  predicate NoneLost(s: Prog) {
    forall p: nat | p < |s.m.mode| :: NotLost(Cond, s.m, p)
  }

  /** In every run that has lost no wakeup so far, the killed return of `pipewrite` loses one exactly
      when it abandons a reader: it has put bytes since its last `wakeup`, and a reader waits. */
  lemma KilledReturn(ss: seq<Prog>, actions: seq<Action>, i: nat, p: nat)
    requires IsRun(ss, actions) && i + 2 == |actions| && forall j | 0 <= j < i :: !Abandons(ss[j], actions[j])
    requires p < |ss[i].pc| && ss[i].pc[p].WCheck? && ss[i].pc[p].rest != [] && p in ss[i].killed
    requires actions[i] == Move(p) && actions[i + 1] == Does(Release(p))
    ensures NoneLost(ss[i + 2]) <==> !(RD in ss[i].m.owed && ReaderWaits(ss[i]))
  {
    hide DataOk;
    var s, s1, s2 := ss[i], ss[i + 1], ss[i + 2];
    RunInv(ss, actions, i);
    assert ProcOk(s, p);
    assert Next(s, actions[i], s1) && Next(s1, actions[i + 1], s2);
    assert s2.m == s.m.(lk := None, owed := {});
    if RD in s.m.owed && ReaderWaits(s) {
      var q: nat :| q < |s.m.mode| && Waits(s.m.mode[q], RD);
      assert !NotLost(Cond, s2.m, q);
    } else {
      forall q: nat | q < |s2.m.mode|
        ensures NotLost(Cond, s2.m, q)
      {
        assert NotLost(Cond, s.m, q);
      }
    }
  }

  ghost predicate Reachable(s: Prog) {
    exists ss, actions :: IsRun(ss, actions) && ss[|actions|] == s
  }

  lemma ReachStep(s: Prog, a: Action, s': Prog)
    requires Reachable(s) && Next(s, a, s')
    ensures Reachable(s')
  {
    var ss, actions :| IsRun(ss, actions) && ss[|actions|] == s;
    assert IsRun(ss + [s'], actions + [a]);
  }

  function World(modes: seq<Mode>, lk: Option<nat>, d: Data, owed: set<nat>, pc: seq<Pc>, killed: set<nat>,
                 h: History): Prog {
    Prog(State(modes, lk, d, owed, None), pc, killed, h)
  }

  /** Process 0 has asked for one byte. */
  const ASKED: History := History([], [Reading(0, 1)], [], [], [0, 0])

  /** And process 1 has been given two. */
  const GIVEN: History := ASKED.(given := [Writing(1, [7, 8])])

  predicate Fresh(d: Data) {
    |d.ring| == PIPESIZE && d == Data(d.ring, 0, 0, true, true, [], [])
  }

  /** Process 0 finds the pipe empty and calls `sleep`. */
  lemma ReaderDozes(d: Data)
    requires Fresh(d)
    ensures Reachable(World([Locking(RD), Running], Some(0), d, {}, [Sleeping(RCheck(1)), Idle], {}, ASKED))
  {
    hide Reachable;
    var r := RCheck(1);
    var s0 := World([Running, Running], None, d, {}, [Idle, Idle], {}, History([], [], [], [], [0, 0]));
    ReachStart(s0);
    var s1 := World([Running, Running], None, d, {}, [Enter(r), Idle], {}, ASKED);
    ReachStep(s0, Move(0), s1);
    var s2 := World([Running, Running], Some(0), d, {}, [r, Idle], {}, ASKED);
    ReachStep(s1, Does(Acquire(0)), s2);
    var s3 := World([Running, Running], Some(0), d, {}, [Doze(RD, r), Idle], {}, ASKED);
    ReachStep(s2, Move(0), s3);
    ReachStep(s3, Does(SleepStart(0, RD)),
        World([Locking(RD), Running], Some(0), d, {}, [Sleeping(r), Idle], {}, ASKED));
  }

  lemma ReaderSleeps(d: Data)
    requires Fresh(d)
    ensures Reachable(World([Asleep(RD), Running], None, d, {}, [Sleeping(RCheck(1)), Idle], {}, ASKED))
  {
    hide Reachable, Fresh;
    ReaderDozes(d);
    var pcs := [Sleeping(RCheck(1)), Idle];
    var s5 := World([Parking(RD), Running], None, d, {}, pcs, {}, ASKED);
    ReachStep(World([Locking(RD), Running], Some(0), d, {}, pcs, {}, ASKED), Does(SleepRelease(0)), s5);
    var s6 := World([Marked(RD), Running], None, d, {}, pcs, {}, ASKED);
    ReachStep(s5, Does(SleepMark(0)), s6);
    ReachStep(s6, Does(SleepSwitch(0)), World([Asleep(RD), Running], None, d, {}, pcs, {}, ASKED));
  }

  lemma ReachStart(s: Prog)
    requires Start(s)
    ensures Reachable(s)
  {
    assert IsRun([s], []);
  }

  /** Process 1 writes the first byte of two. */
  lemma WriterPuts(d: Data, r: Pc, modes: seq<Mode>)
    requires Fresh(d) && r == Sleeping(RCheck(1)) && modes == [Asleep(RD), Running]
    ensures Reachable(World(modes, Some(1), Put(d, 7), {RD}, [r, WCheck([8])], {}, GIVEN.(sentBy := [0])))
  {
    hide Reachable;
    ReaderSleeps(d);
    var s0 := World(modes, None, d, {}, [r, Idle], {}, ASKED);
    var s1 := World(modes, None, d, {}, [r, Enter(WCheck([7, 8]))], {}, GIVEN);
    ReachStep(s0, Move(1), s1);
    var s2 := World(modes, Some(1), d, {}, [r, WCheck([7, 8])], {}, GIVEN);
    ReachStep(s1, Does(Acquire(1)), s2);
    var s3 := World(modes, Some(1), d, {}, [r, WPut([7, 8])], {}, GIVEN);
    ReachStep(s2, Move(1), s3);
    assert [7, 8][1..] == [8];
    ReachStep(s3, Does(Update(1, Put(d, 7), {RD})),
        World(modes, Some(1), Put(d, 7), {RD}, [r, WCheck([8])], {}, GIVEN.(sentBy := [0])));
  }

  /** The hypothesis on `kill` is needed: process 1 writes one byte of two, is killed, and returns
      without waking the reader, which sleeps on although a byte is there and nobody holds the lock. */
  lemma LostWakeup(d: Data) returns (s: Prog)
    requires Fresh(d)
    ensures Reachable(s) && |s.m.mode| == 2 && s.m.mode[0] == Asleep(RD) && Cond(RD, s.m.d) && s.m.lk == None
  {
    hide Reachable;
    var d', r, modes := Put(d, 7), Sleeping(RCheck(1)), [Asleep(RD), Running];
    WriterPuts(d, r, modes);
    var s4 := World(modes, Some(1), d', {RD}, [r, WCheck([8])], {}, GIVEN.(sentBy := [0]));
    var s5 := World(modes, Some(1), d', {RD}, [r, WCheck([8])], {1}, GIVEN.(sentBy := [0]));
    ReachStep(s4, Mark(1), s5);
    var s6 := World(modes, Some(1), d', {RD}, [r, Exit], {1}, GIVEN.(sentBy := [0]));
    ReachStep(s5, Move(1), s6);
    s := World(modes, None, d', {}, [r, Idle], {1}, GIVEN.(sentBy := [0]));
    ReachStep(s6, Does(Release(1)), s);
  }
}
