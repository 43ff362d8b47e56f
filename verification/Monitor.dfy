/** Sleep and wakeup around one condition lock, for any number of processes, interleaved in any way. */
module Monitor {
  import opened Basics

  /** Where a process is. In `sleep(chan, lk)` it first takes its own process lock (Locking), then
      releases the condition lock (Parking), sets its channel and state (Marked), and switches to the
      scheduler, which releases the process lock (Asleep). */
  datatype Mode = Running | Locking(chan: nat) | Parking(chan: nat) | Marked(chan: nat) | Asleep(chan: nat) | Runnable

  /** A `wakeup(chan)` that has looked at the processes before `next`. */
  datatype Scan = Scan(chan: nat, next: nat)

  /** `lk` is the holder of the condition lock and `d` the data it guards. `owed` are the channels
      whose condition has become true since the lock was taken and since their last `wakeup`. */
  datatype State<D> = State(mode: seq<Mode>, lk: Option<nat>, d: D, owed: set<nat>, scan: Option<Scan>)

  datatype Event<D> =
    | Acquire(t: nat)
    | Update(t: nat, d: D, owed: set<nat>)
    | WakeStart(t: nat, chan: nat)
    | WakeStep(t: nat)
    | WakeEnd(t: nat)
    | Release(t: nat)
    | SleepStart(t: nat, chan: nat)
    | SleepRelease(t: nat)
    | SleepMark(t: nat)
    | SleepSwitch(t: nat)
    | Kill(t: nat)
    | Resume(t: nat)

  predicate Holds<D>(m: State<D>, t: nat) {
    t < |m.mode| && m.lk == Some(t) && m.mode[t] == Running
  }

  /** The process holds its own process lock, so that `wakeup` and `kill` have to wait for it. */
  predicate PLocked(mode: Mode) {
    mode.Locking? || mode.Parking? || mode.Marked?
  }

  /** What the locks and the program order let happen. */
  predicate Enabled<D>(m: State<D>, e: Event<D>) {
    && e.t < |m.mode|
    && match e
       case Acquire(t) => m.mode[t] == Running && m.lk == None
       case Update(t, d, owed) => Holds(m, t) && m.scan == None
       case WakeStart(t, chan) => Holds(m, t) && m.scan == None
       case WakeStep(t) =>
         && Holds(m, t) && m.scan.Some? && m.scan.value.next < |m.mode|
         && !PLocked(m.mode[m.scan.value.next])
       case WakeEnd(t) => Holds(m, t) && m.scan.Some? && m.scan.value.next == |m.mode|
       case Release(t) => Holds(m, t) && m.scan == None
       case SleepStart(t, chan) => Holds(m, t) && m.scan == None
       case SleepRelease(t) => m.mode[t].Locking? && m.lk == Some(t)
       case SleepMark(t) => m.mode[t].Parking?
       case SleepSwitch(t) => m.mode[t].Marked?
       case Kill(t) => m.mode[t].Asleep?
       case Resume(t) => m.mode[t] == Runnable
  }

  function Woken(mode: Mode, chan: nat): Mode {
    if mode == Asleep(chan) then Runnable else mode
  }

  function Effect<D>(m: State<D>, e: Event<D>): State<D>
    requires Enabled(m, e)
  {
    match e
    case Acquire(t) => m.(lk := Some(t))
    case Update(t, d, owed) => m.(d := d, owed := owed)
    case WakeStart(t, chan) => m.(scan := Some(Scan(chan, 0)), owed := m.owed - {chan})
    case WakeStep(t) =>
      var s := m.scan.value;
      m.(mode := m.mode[s.next := Woken(m.mode[s.next], s.chan)], scan := Some(Scan(s.chan, s.next + 1)))
    case WakeEnd(t) => m.(scan := None)
    case Release(t) => m.(lk := None, owed := {})
    case SleepStart(t, chan) => m.(mode := m.mode[t := Locking(chan)])
    case SleepRelease(t) => m.(mode := m.mode[t := Parking(m.mode[t].chan)], lk := None)
    case SleepMark(t) => m.(mode := m.mode[t := Marked(m.mode[t].chan)])
    case SleepSwitch(t) => m.(mode := m.mode[t := Asleep(m.mode[t].chan)])
    case Kill(t) => m.(mode := m.mode[t := Runnable])
    case Resume(t) => m.(mode := m.mode[t := Running])
  }

  /** The discipline that callers of `sleep` and `wakeup` keep: sleep only when the condition is
      false; and let go of the condition lock only after a `wakeup` for every condition that has
      become true, unless nobody waits for it. */
  ghost predicate Proper<D(!new)>(cond: (nat, D) -> bool, m: State<D>, e: Event<D>) {
    match e
    case Update(t, d, owed) =>
      && m.owed <= owed
      && forall c: nat | cond(c, d) && !cond(c, m.d) :: c in owed || NobodyWaits(m, c)
    case Release(t) => forall c | c in m.owed :: NobodyWaits(m, c)
    case SleepStart(t, chan) => m.owed == {} && !cond(chan, m.d)
    case _ => true
  }

  ghost predicate Next<D(!new)>(cond: (nat, D) -> bool, m: State<D>, e: Event<D>, m': State<D>) {
    Enabled(m, e) && Proper(cond, m, e) && m' == Effect(m, e)
  }

  /** The process has given up the condition lock to sleep on `chan` and has not been woken. */
  predicate Waits(mode: Mode, chan: nat) {
    mode == Parking(chan) || mode == Marked(chan) || mode == Asleep(chan)
  }

  predicate NobodyWaits<D>(m: State<D>, chan: nat) {
    forall p | 0 <= p < |m.mode| :: !Waits(m.mode[p], chan)
  }

  /** The holder of the condition lock still owes `wakeup(chan)`, or its scan has yet to reach `p`. */
  predicate YetToScan<D>(m: State<D>, p: nat, chan: nat) {
    m.lk.Some? && (chan in m.owed || (m.scan.Some? && m.scan.value.chan == chan && m.scan.value.next <= p))
  }

  predicate NotLost<D>(cond: (nat, D) -> bool, m: State<D>, p: nat)
    requires p < |m.mode|
  {
    var mode := m.mode[p];
    (mode.Parking? || mode.Marked? || mode.Asleep?) && cond(mode.chan, m.d) ==> YetToScan(m, p, mode.chan)
  }

  predicate LockOk<D>(cond: (nat, D) -> bool, m: State<D>) {
    && (m.lk == None ==> m.owed == {} && m.scan == None)
    && (m.lk.Some? ==> m.lk.value < |m.mode| && (m.mode[m.lk.value] == Running || m.mode[m.lk.value].Locking?))
    && (m.scan.Some? ==> m.scan.value.next <= |m.mode|
                         && forall p | 0 <= p < m.scan.value.next :: !Waits(m.mode[p], m.scan.value.chan))
    && forall p | 0 <= p < |m.mode| && m.mode[p].Locking? ::
         m.lk == Some(p) && m.owed == {} && m.scan == None && !cond(m.mode[p].chan, m.d)
  }

  predicate Inv<D>(cond: (nat, D) -> bool, m: State<D>) {
    LockOk(cond, m) && forall p: nat | p < |m.mode| :: NotLost(cond, m, p)
  }

  lemma NextKeeps<D(!new)>(cond: (nat, D) -> bool, m: State<D>, e: Event<D>, m': State<D>)
    requires Inv(cond, m) && Next(cond, m, e, m')
    ensures Inv(cond, m')
  {
    forall p: nat | p < |m'.mode|
      ensures NotLost(cond, m', p)
    {
      assert NotLost(cond, m, p);
    }
  }

  predicate Start<D>(m: State<D>) {
    m.lk == None && m.owed == {} && m.scan == None && forall p | 0 <= p < |m.mode| :: m.mode[p] == Running
  }

  ghost predicate IsRun<D(!new)>(cond: (nat, D) -> bool, ms: seq<State<D>>, es: seq<Event<D>>) {
    |ms| == |es| + 1 && Start(ms[0]) && forall i | 0 <= i < |es| :: Next(cond, ms[i], es[i], ms[i + 1])
  }

  lemma {:induction false} RunInv<D(!new)>(cond: (nat, D) -> bool, ms: seq<State<D>>, es: seq<Event<D>>, i: nat)
    requires IsRun(cond, ms, es) && i < |ms|
    ensures Inv(cond, ms[i])
  {
    if i > 0 {
      RunInv(cond, ms, es, i - 1);
      NextKeeps(cond, ms[i - 1], es[i - 1], ms[i]);
    }
  }

  /** No wakeup is lost: at every point of every run, if a process sleeps, or is about to, on a
      channel whose condition holds, then some process holds the condition lock and has yet to scan
      the sleeper. When the lock is free there is no such sleeper. */
  lemma NoLostWakeup<D(!new)>(cond: (nat, D) -> bool, ms: seq<State<D>>, es: seq<Event<D>>, i: nat, p: nat, chan: nat)
    requires IsRun(cond, ms, es) && i < |ms| && p < |ms[i].mode| && Waits(ms[i].mode[p], chan) && cond(chan, ms[i].d)
    ensures ms[i].lk.Some? && ms[i].lk.value < |ms[i].mode| && ms[i].lk.value != p && YetToScan(ms[i], p, chan)
  {
    RunInv(cond, ms, es, i);
    assert NotLost(cond, ms[i], p);
  }

  /** In every run, a sleeping process becomes runnable exactly when a `wakeup` of its channel looks at it, or
      when it is killed. */
  lemma WokenExact<D(!new)>(cond: (nat, D) -> bool, ms: seq<State<D>>, es: seq<Event<D>>, i: nat, p: nat)
    requires IsRun(cond, ms, es) && i < |es| && p < |ms[i].mode| && ms[i].mode[p].Asleep?
    ensures |ms[i + 1].mode| == |ms[i].mode|
    ensures ms[i + 1].mode[p] == Runnable <==>
              || es[i] == Kill(p)
              || (es[i].WakeStep? && ms[i].scan == Some(Scan(ms[i].mode[p].chan, p)))
    ensures ms[i + 1].mode[p] == Runnable || ms[i + 1].mode[p] == ms[i].mode[p]
  {
    RunInv(cond, ms, es, i);
    assert Next(cond, ms[i], es[i], ms[i + 1]);
    hide Inv, Proper;
  }
}
