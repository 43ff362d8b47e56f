/** What `begin_op`'s reservation buys: when `log_write` within quota cannot meet "too big a transaction". */
module Reservation {
  import opened Words
  import opened LogDisk
  import opened GroupCommit

  // ----- log space -----

  /** The log space that outstanding operations may still claim. */
  ghost function Unspent(ops: map<nat, set<nat>>): int
    decreases |ops|
  {
    if ops == map[] then 0 else
      var o :| o in ops;
      MAXOPBLOCKS - |ops[o]| + Unspent(ops - {o})
  }

  lemma {:induction false} UnspentSplit(ops: map<nat, set<nat>>, o: nat)
    requires o in ops
    ensures Unspent(ops) == MAXOPBLOCKS - |ops[o]| + Unspent(ops - {o})
    decreases |ops|
  {
    var p :| p in ops && Unspent(ops) == MAXOPBLOCKS - |ops[p]| + Unspent(ops - {p});
    if p != o {
      UnspentSplit(ops - {p}, o);
      UnspentSplit(ops - {o}, p);
      assert ops - {p} - {o} == ops - {o} - {p};
    }
  }

  lemma {:induction false} UnspentBound(ops: map<nat, set<nat>>)
    ensures Unspent(ops) <= |ops| * MAXOPBLOCKS
    decreases |ops|
  {
    if ops != map[] {
      var o :| o in ops;
      UnspentSplit(ops, o);
      UnspentBound(ops - {o});
    }
  }

  /** A new operation has its whole quota to spend. */
  lemma RoomLeft(ops: map<nat, set<nat>>, o: nat)
    requires o !in ops
    ensures |ops[o := {}]| == |ops| + 1
    ensures Unspent(ops[o := {}]) <= (|ops| + 1) * MAXOPBLOCKS
  {
    var ops' := ops[o := {}];
    UnspentSplit(ops', o);
    assert ops' - {o} == ops;
    UnspentBound(ops);
  }

  /** An operation stays within its quota of distinct blocks. */
  predicate InQuota(s: State, o: nat, b: nat)
    requires o in s.ops
  {
    b in s.ops[o] || |s.ops[o]| < MAXOPBLOCKS
  }

  /** The step is within the quota of the operation that takes it. */
  predicate Within(s: State, e: Event) {
    e.LogWrite? && e.o in s.ops ==> InQuota(s, e.o, e.b)
  }

  /** Reservation: the listed blocks and the unspent quotas fit the log. */
  ghost predicate Reserved(s: State) {
    && |s.lh| + Unspent(s.ops) <= LOGSIZE
    && (forall o | o in s.ops :: |s.ops[o]| <= MAXOPBLOCKS)
    && forall o, b | o in s.ops && b in s.ops[o] :: b in s.lh
  }

  lemma BeginReserved(s: State, o: nat, s': State)
    requires Reserved(s) && o !in s.ops && CanBegin(s) && s'.ops == s.ops[o := {}] && s'.lh == s.lh
    ensures Reserved(s')
  {
    RoomLeft(s.ops, o);
  }

  lemma LogWriteReserved(s: State, o: nat, b: nat, s': State)
    requires Reserved(s) && Holds(s, o, b) && InQuota(s, o, b) && b < 0x1_0000_0000
    requires s'.lh == Absorb(s.lh, b) && s'.ops == s.ops[o := s.ops[o] + {b}]
    ensures Reserved(s')
  {
    UnspentSplit(s.ops, o);
    UnspentSplit(s'.ops, o);
    assert s'.ops - {o} == s.ops - {o};
    if b in s.ops[o] {
      assert s.ops[o] + {b} == s.ops[o];
    }
    forall p, x | p in s'.ops && x in s'.ops[p]
      ensures x in s'.lh
    {
      assert x == b || (p in s.ops && x in s.ops[p]);
    }
  }

  lemma EndReserved(s: State, o: nat, s': State)
    requires Reserved(s) && o in s.ops && s'.ops == s.ops - {o} && s'.lh == s.lh
    ensures Reserved(s')
  {
    UnspentSplit(s.ops, o);
  }

  lemma StepReserved(g: Geometry, init: Disk, s: State, e: Event, s': State)
    requires Inv(g, init, s) && Reserved(s) && Next(g, s, e, s') && Within(s, e)
    ensures Reserved(s')
  {
    hide Reserved, Strays;
    match e
    case Begin(o) =>
      assert o !in s.ops;
      hide Inv;
      BeginReserved(s, o, s');
    case LogWrite(o, b) =>
      hide Inv;
      LogWriteReserved(s, o, b, s');
    case End(o) =>
      hide Inv;
      if s.ops.Keys == {o} {
        assert s.ops - {o} == map[];
      }
      EndReserved(s, o, s');
    case _ =>
      OperationsKept(g, init, s, e, s');
      hide Inv, Next;
      SameReserved(s, s');
  }

  lemma SameReserved(s: State, s': State)
    requires Reserved(s) && ((s'.ops == s.ops && s'.lh == s.lh) || (s'.ops == map[] && s'.lh == []))
    ensures Reserved(s')
  {
  }

  /** The other steps leave the operations and the list alone, or drop both. */
  lemma OperationsKept(g: Geometry, init: Disk, s: State, e: Event, s': State)
    requires Inv(g, init, s) && Next(g, s, e, s') && !e.Begin? && !e.LogWrite? && !e.End?
    ensures (s'.ops == s.ops && s'.lh == s.lh) || (s'.ops == map[] && s'.lh == [])
  {
    hide CommitWrite, GoodDisk, GoodList, RecoverWrites, Strays, Forget;
  }

  // ----- runs within quota -----

  predicate QuotaRun(g: Geometry, d: Disk, ss: seq<State>, es: seq<Event>) {
    IsRun(g, d, ss, es) && forall i | 0 <= i < |es| :: Within(ss[i], es[i])
  }

  /** `s` is the last state of a run that boots disk `d`, in which all operations keep to their quotas. */
  ghost predicate Reachable(g: Geometry, d: Disk, s: State) {
    exists ss, es :: QuotaRun(g, d, ss, es) && ss[|es|] == s
  }

  /** In every such run the listed blocks and the unspent quotas fit the log. */
  lemma {:induction false} RunReserved(g: Geometry, d: Disk, ss: seq<State>, es: seq<Event>, i: nat)
    requires QuotaRun(g, d, ss, es) && i < |ss|
    ensures Reserved(ss[i])
  {
    hide Inv, Next, Within, Reserved;
    if i == 0 {
      BootReserved(g, d, ss[0]);
    } else {
      RunReserved(g, d, ss, es, i - 1);
      RunInv(g, d, ss, es, i - 1);
      StepReserved(g, Recovered(g, d), ss[i - 1], es[i - 1], ss[i]);
    }
  }

  lemma BootReserved(g: Geometry, d: Disk, s: State)
    requires Boot(g, d, s)
    ensures Reserved(s)
  {
  }

  lemma ReachableInv(g: Geometry, d: Disk, s: State)
    requires Reachable(g, d, s)
    ensures GoodDisk(g, d) && Inv(g, Recovered(g, d), s) && Reserved(s)
  {
    hide Inv, Next, Reserved;
    var ss, es :| QuotaRun(g, d, ss, es) && ss[|es|] == s;
    RunInv(g, d, ss, es, |es|);
    RunReserved(g, d, ss, es, |es|);
  }

  lemma ReachStep(g: Geometry, d: Disk, s: State, e: Event, s': State)
    requires Reachable(g, d, s) && Next(g, s, e, s') && Within(s, e)
    ensures Reachable(g, d, s')
  {
    hide Next, Within;
    var ss, es :| QuotaRun(g, d, ss, es) && ss[|es|] == s;
    assert QuotaRun(g, d, ss + [s'], es + [e]);
  }

  // ----- a log as large as LOGSIZE needs: the panic is out of reach -----

  lemma {:induction false} UnspentNonNegative(ops: map<nat, set<nat>>)
    requires forall o | o in ops :: |ops[o]| <= MAXOPBLOCKS
    ensures 0 <= Unspent(ops)
    decreases |ops|
  {
    if ops != map[] {
      var o :| o in ops;
      UnspentSplit(ops, o);
      UnspentNonNegative(ops - {o});
    }
  }

  /** An operation that has logged `u` distinct blocks leaves room for its other ones. */
  lemma RoomForQuota(s: State, o: nat)
    requires Reserved(s) && o in s.ops
    ensures |s.lh| + (MAXOPBLOCKS - |s.ops[o]|) <= LOGSIZE
  {
    UnspentSplit(s.ops, o);
    UnspentNonNegative(s.ops - {o});
  }

  lemma QuotaSuffices(g: Geometry, d: Disk, s: State, o: nat)
    requires Reachable(g, d, s) && s.mode.Running? && o in s.ops && |s.ops[o]| < MAXOPBLOCKS
    requires LOGSIZE <= g.size - 1
    ensures !TooBig(g, s)
  {
    ReachableInv(g, d, s);
    RoomForQuota(s, o);
  }

  // ----- runs that fill the log -----

  function RecoveringState(g: Geometry, d: Disk, k: nat): State
    requires GoodDisk(g, d) && InRange(d, RecoverWrites(g, d)) && k <= |RecoverWrites(g, d)|
  {
    State(After(d, RecoverWrites(g, d), k), d, [], map[], map[], {}, Recovering(k), d, d, [], {}, {}, [], 0)
  }

  lemma {:induction false} ReachRecovering(g: Geometry, d: Disk, k: nat)
    requires GoodDisk(g, d) && InRange(d, RecoverWrites(g, d)) && k <= |RecoverWrites(g, d)|
    ensures Reachable(g, d, RecoveringState(g, d, k))
  {
    if k == 0 {
      assert QuotaRun(g, d, [RecoveringState(g, d, 0)], []);
    } else {
      ReachRecovering(g, d, k - 1);
      ReachStep(g, d, RecoveringState(g, d, k - 1), RecoverStep, RecoveringState(g, d, k));
    }
  }

  /** `n` consecutive block numbers. */
  function Blocks(lo: nat, n: nat): set<nat> {
    if n == 0 then {} else Blocks(lo, n - 1) + {lo + n - 1}
  }

  lemma {:induction false} BlocksAre(lo: nat, n: nat)
    ensures |Blocks(lo, n)| == n && forall b :: b in Blocks(lo, n) <==> lo <= b < lo + n
  {
    if n > 0 {
      BlocksAre(lo, n - 1);
    }
  }

  /** The first home block after the log. */
  function FirstHome(g: Geometry): nat {
    g.start + g.size
  }

  /** There are LOGSIZE home blocks after the log, and block numbers fit a word. */
  predicate Roomy(g: Geometry, n: nat) {
    FirstHome(g) + LOGSIZE <= n <= 0x1_0000_0000
  }

  /** How many of the ten blocks from `lo` on are among the first `m`. */
  function Share(m: nat, lo: nat): nat {
    if m <= lo then 0 else if m >= lo + 10 then 10 else m - lo
  }

  function Shares(h: nat, m: nat): map<nat, set<nat>> {
    map[0 := Blocks(h, Share(m, 0)), 1 := Blocks(h + 10, Share(m, 10)), 2 := Blocks(h + 20, Share(m, 20))]
  }

  function Owner(i: nat): nat {
    if i < 10 then 0 else if i < 20 then 1 else 2
  }

  lemma SharesStep(h: nat, m: nat, o: nat)
    requires m < LOGSIZE && o == Owner(m)
    ensures o in Shares(h, m) && |Shares(h, m)[o]| < MAXOPBLOCKS
    ensures Shares(h, m + 1) == Shares(h, m)[o := Shares(h, m)[o] + {h + m}]
  {
    hide Blocks;
    var lo := 10 * o;
    BlocksAre(h + lo, m - lo);
    BlocksSnoc(h + lo, m - lo);
    ShareStep(m, o);
    hide Share, Owner;
    var more := Shares(h, m)[o] + {h + m};
    assert more == Blocks(h + lo, m - lo + 1);
    OneOfThree(Blocks(h, Share(m, 0)), Blocks(h + 10, Share(m, 10)), Blocks(h + 20, Share(m, 20)), o, more);
  }

  lemma OneOfThree(a: set<nat>, b: set<nat>, c: set<nat>, o: nat, more: set<nat>)
    requires o < 3
    ensures map[0 := a, 1 := b, 2 := c][o := more] ==
            map[0 := if o == 0 then more else a, 1 := if o == 1 then more else b, 2 := if o == 2 then more else c]
  {
  }

  lemma ShareStep(m: nat, o: nat)
    requires m < LOGSIZE && o == Owner(m)
    ensures o < 3 && 10 * o <= m < 10 * o + 10 && Share(m, 10 * o) == m - 10 * o
    ensures Share(m + 1, 10 * o) == m + 1 - 10 * o
    ensures o != 0 ==> Share(m + 1, 0) == Share(m, 0)
    ensures o != 1 ==> Share(m + 1, 10) == Share(m, 10)
    ensures o != 2 ==> Share(m + 1, 20) == Share(m, 20)
  {
  }

  lemma BlocksSnoc(lo: nat, n: nat)
    ensures Blocks(lo, n + 1) == Blocks(lo, n) + {lo + n}
  {
  }

  lemma SharesNone(h: nat)
    ensures Shares(h, 0) == map[0 := {}, 1 := {}, 2 := {}]
  {
  }

  /** Three operations have begun and logged the first `m` home blocks after the log, ten each;
      `r` is the recovered disk. */
  function Filled(g: Geometry, d: Disk, r: Disk, m: nat): State
    requires Roomy(g, |r|) && m <= LOGSIZE
  {
    var h := FirstHome(g);
    State(r, r, seq(m, (i: nat) requires i < m => (h + i) as Word),
          Shares(h, m), map[], {}, Running, d, d,
          seq(m, (i: nat) requires i < m => Logged(Owner(i), (h + i) as Word, r[h + i])), {}, {0, 1, 2}, [], 0)
  }

  function Ready(r: Disk, d: Disk, ops: map<nat, set<nat>>): State {
    State(r, r, [], ops, map[], {}, Running, d, d, [], {}, ops.Keys, [], 0)
  }

  lemma ReachReady(g: Geometry, d: Disk)
    requires GoodDisk(g, d)
    ensures Reachable(g, d, Ready(Recovered(g, d), d, map[]))
  {
    RecoverInRange(g, d);
    var n := |RecoverWrites(g, d)|;
    ReachRecovering(g, d, n);
    ReachStep(g, d, RecoveringState(g, d, n), RecoverDone, Ready(Recovered(g, d), d, map[]));
  }

  lemma ReachBegin(g: Geometry, d: Disk, r: Disk, ops: map<nat, set<nat>>, o: nat)
    requires Reachable(g, d, Ready(r, d, ops)) && o !in ops && |ops| < 3
    ensures Reachable(g, d, Ready(r, d, ops[o := {}]))
  {
    assert ops[o := {}].Keys == ops.Keys + {o};
    ReachStep(g, d, Ready(r, d, ops), Begin(o), Ready(r, d, ops[o := {}]));
  }

  lemma ReachEmpty(g: Geometry, d: Disk)
    requires GoodDisk(g, d) && Roomy(g, |d|)
    ensures Reachable(g, d, Filled(g, d, Recovered(g, d), 0))
  {
    hide Reachable, Recovered, GoodDisk, Shares;
    var r := Recovered(g, d);
    var none: map<nat, set<nat>> := map[];
    ReachReady(g, d);
    ReachBegin(g, d, r, none, 0);
    ReachBegin(g, d, r, none[0 := {}], 1);
    ReachBegin(g, d, r, none[0 := {}][1 := {}], 2);
    var ops := none[0 := {}][1 := {}][2 := {}];
    assert ops.Keys == {0, 1, 2};
    SharesNone(FirstHome(g));
    assert Filled(g, d, r, 0).lh == [] && Filled(g, d, r, 0).group == [];
  }

  lemma FillLock(g: Geometry, s: State, o: nat, b: nat)
    requires s.mode.Running? && o in s.ops && b < |s.mem| <= 0x1_0000_0000 && !InLog(g, b) && s.held == map[]
    ensures Next(g, s, Lock(o, b), s.(held := map[b := o]))
  {
  }

  lemma FillUnlock(g: Geometry, s: State, o: nat, b: nat)
    requires s.mode.Running? && o in s.ops && b < |s.mem| && s.held == map[b := o] && s.dirty == {}
    ensures Next(g, s, Unlock(o, b), s.(held := map[]))
  {
    assert s.held - {b} == map[];
  }

  lemma FillLogWrite(g: Geometry, d: Disk, r: Disk, m: nat, o: nat, b: nat)
    requires Roomy(g, |r|) && m < LOGSIZE && m < g.size - 1 && o == Owner(m) && b == FirstHome(g) + m
    ensures Next(g, Filled(g, d, r, m).(held := map[b := o]), LogWrite(o, b),
                  Filled(g, d, r, m + 1).(held := map[b := o]))
    ensures Within(Filled(g, d, r, m).(held := map[b := o]), LogWrite(o, b))
  {
    hide Shares;
    var s, t := Filled(g, d, r, m), Filled(g, d, r, m + 1);
    SharesStep(FirstHome(g), m, o);
    assert t.lh == Absorb(s.lh, b);
    assert t.group == s.group + [Logged(o, b, s.mem[b])];
  }

  lemma FillStep(g: Geometry, d: Disk, r: Disk, m: nat)
    requires Roomy(g, |r|) && m < LOGSIZE && m < g.size - 1 && Reachable(g, d, Filled(g, d, r, m))
    ensures Reachable(g, d, Filled(g, d, r, m + 1))
  {
    hide Reachable, Shares, Next;
    var s, t := Filled(g, d, r, m), Filled(g, d, r, m + 1);
    var o, b := Owner(m), FirstHome(g) + m;
    SharesStep(FirstHome(g), m, o);
    FillLock(g, s, o, b);
    ReachStep(g, d, s, Lock(o, b), s.(held := map[b := o]));
    FillLogWrite(g, d, r, m, o, b);
    ReachStep(g, d, s.(held := map[b := o]), LogWrite(o, b), t.(held := map[b := o]));
    FillUnlock(g, t.(held := map[b := o]), o, b);
    ReachStep(g, d, t.(held := map[b := o]), Unlock(o, b), t);
  }

  lemma {:induction false} ReachFilled(g: Geometry, d: Disk, m: nat)
    requires GoodDisk(g, d) && Roomy(g, |d|) && m <= LOGSIZE && m <= g.size - 1
    ensures Reachable(g, d, Filled(g, d, Recovered(g, d), m))
  {
    if m == 0 {
      ReachEmpty(g, d);
    } else {
      ReachFilled(g, d, m - 1);
      FillStep(g, d, Recovered(g, d), m - 1);
    }
  }

  /** A smaller log: some run reaches the panic with an operation that has quota left. The image
      `mkfs` makes has `nlog == LOGSIZE`, so it is one of these. */
  lemma SmallLogPanics(g: Geometry, d: Disk) returns (s: State, o: nat)
    requires GoodDisk(g, d) && Roomy(g, |d|) && g.size - 1 < LOGSIZE
    ensures Reachable(g, d, s) && s.mode.Running? && o in s.ops && |s.ops[o]| < MAXOPBLOCKS && TooBig(g, s)
  {
    var m := g.size - 1;
    ReachFilled(g, d, m);
    s, o := Filled(g, d, Recovered(g, d), m), Owner(m);
    SharesStep(FirstHome(g), m, o);
  }

  /** The quota alone rules the panic out exactly when the log holds LOGSIZE data blocks. */
  lemma QuotaExact(g: Geometry, d: Disk)
    requires GoodDisk(g, d) && Roomy(g, |d|)
    ensures (forall s, o | Reachable(g, d, s) && s.mode.Running? && o in s.ops && |s.ops[o]| < MAXOPBLOCKS ::
                 !TooBig(g, s))
            <==> LOGSIZE <= g.size - 1
  {
    if LOGSIZE <= g.size - 1 {
      forall s, o | Reachable(g, d, s) && s.mode.Running? && o in s.ops && |s.ops[o]| < MAXOPBLOCKS
        ensures !TooBig(g, s)
      {
        QuotaSuffices(g, d, s, o);
      }
    } else {
      var s, o := SmallLogPanics(g, d);
    }
  }

  /** The panic check comes before absorption: with every quota spent, logging again a block the
      log already holds panics, though it needs no space. */
  lemma AbsorbedWritePanics(g: Geometry, d: Disk) returns (s: State, o: nat, b: Word)
    requires GoodDisk(g, d) && Roomy(g, |d|) && LOGSIZE <= g.size - 1
    ensures Reachable(g, d, s) && Holds(s, o, b) && InQuota(s, o, b) && Absorb(s.lh, b) == s.lh && TooBig(g, s)
  {
    ReachFilled(g, d, LOGSIZE);
    var full := Filled(g, d, Recovered(g, d), LOGSIZE);
    o, b := 0, FirstHome(g);
    s := full.(held := map[b as nat := o]);
    assert s.lh[0] == b;
    BlocksAre(b, 10);
    ReachStep(g, d, full, Lock(o, b), s);
  }

  /** And it happens only then: the log is full and every outstanding operation has spent its quota. */
  lemma PanicSpent(g: Geometry, d: Disk, s: State)
    requires Reachable(g, d, s) && s.mode.Running? && LOGSIZE <= g.size - 1 && TooBig(g, s)
    ensures |s.lh| == LOGSIZE && forall o | o in s.ops :: |s.ops[o]| == MAXOPBLOCKS
  {
    ReachableInv(g, d, s);
    UnspentNonNegative(s.ops);
    forall o | o in s.ops
      ensures |s.ops[o]| == MAXOPBLOCKS
    {
      RoomForQuota(s, o);
    }
  }
}
