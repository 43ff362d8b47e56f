/** Whole runs of the log: concurrent operations, group commits write by write, crashes at any point. */
module GroupCommit {
  import opened Basics
  import opened Words
  import opened LogDisk

  /** One `log_write`: operation `op` logged block `bno` holding `data`. */
  datatype Logged = Logged(op: nat, bno: Word, data: Block)

  /** One group commit: the logged writes of the operations that ended in it, and the contents it wrote for
      blocks that were changed again and released without being logged. */
  datatype Group = Group(writes: seq<Logged>, ops: set<nat>, stray: map<nat, Block>)

  datatype Mode = Running | Committing(k: nat) | Recovering(k: nat)

  /** `ops` maps each outstanding operation to the distinct blocks it has logged; `held` maps a
      locked buffer's block to the operation using it; `dirty` are the blocks changed since they
      were last logged. `base` and `snap` are disk and memory when the commit or recovery under way
      started; they and `group`, `ended`, `used`, `commits` and `durable` are history. */
  datatype State = State(
    disk: Disk, mem: Disk, lh: seq<Word>, ops: map<nat, set<nat>>, held: map<nat, nat>, dirty: set<nat>, mode: Mode,
    base: Disk, snap: Disk, group: seq<Logged>, ended: set<nat>, used: set<nat>, commits: seq<Group>, durable: nat)

  datatype Event =
    | Begin(o: nat)
    | Lock(o: nat, b: nat)
    | Modify(o: nat, b: nat, data: Block)
    | LogWrite(o: nat, b: nat)
    | Unlock(o: nat, b: nat)
    | Recycle(bs: set<nat>)
    | End(o: nat)
    | CommitStep
    | CommitDone
    | Crash
    | RecoverStep
    | RecoverDone

  // ----- what a history of logged writes amounts to -----

  function Replay(home: Disk, ws: seq<Logged>): (r: Disk)
    requires forall i | 0 <= i < |ws| :: ws[i].bno < |home|
    ensures |r| == |home|
    decreases |ws|
  {
    if ws == [] then home else Replay(home, ws[..|ws| - 1])[ws[|ws| - 1].bno := ws[|ws| - 1].data]
  }

  predicate InHome(n: nat, ws: seq<Logged>) {
    forall i | 0 <= i < |ws| :: ws[i].bno < n
  }

  predicate AllInHome(n: nat, commits: seq<Group>) {
    forall i | 0 <= i < |commits| :: InHome(n, commits[i].writes)
  }

  /** What block `b` was last logged with. */
  function LastLogged(ws: seq<Logged>, b: nat): Option<Block>
    decreases |ws|
  {
    if ws == [] then None
    else if ws[|ws| - 1].bno == b then Some(ws[|ws| - 1].data)
    else LastLogged(ws[..|ws| - 1], b)
  }

  function Overlay(d: Disk, m: map<nat, Block>): (r: Disk)
    ensures |r| == |d|
  {
    seq(|d|, (b: nat) requires b < |d| => if b in m then m[b] else d[b])
  }

  /** The home blocks after one group commit. */
  function Effect(home: Disk, c: Group): (r: Disk)
    requires InHome(|home|, c.writes)
    ensures |r| == |home|
  {
    Overlay(Replay(home, c.writes), c.stray)
  }

  /** The home blocks after the group commits `commits`, in order. */
  function ReplayAll(home: Disk, commits: seq<Group>): (r: Disk)
    requires AllInHome(|home|, commits)
    ensures |r| == |home|
    decreases |commits|
  {
    if commits == [] then home
    else
      var front := commits[..|commits| - 1];
      assert forall i | 0 <= i < |front| :: front[i] == commits[i];
      assert InHome(|home|, commits[|commits| - 1].writes);
      Effect(ReplayAll(home, front), commits[|commits| - 1])
  }

  /** The home blocks when nothing but the logged writes of `commits` is applied. */
  function ReplayLogged(home: Disk, commits: seq<Group>): (r: Disk)
    requires AllInHome(|home|, commits)
    ensures |r| == |home|
    decreases |commits|
  {
    if commits == [] then home
    else
      var front := commits[..|commits| - 1];
      assert forall i | 0 <= i < |front| :: front[i] == commits[i];
      assert InHome(|home|, commits[|commits| - 1].writes);
      Replay(ReplayLogged(home, front), commits[|commits| - 1].writes)
  }

  // ----- steps -----

  /** The panic "too big a transaction" of `log_write`. */
  predicate TooBig(g: Geometry, s: State) {
    |s.lh| >= LOGSIZE || |s.lh| >= g.size - 1
  }

  predicate CanBegin(s: State) {
    s.mode.Running? && |s.lh| + (|s.ops| + 1) * MAXOPBLOCKS <= LOGSIZE
  }

  predicate Holds(s: State, o: nat, b: nat) {
    s.mode.Running? && o in s.ops && b in s.held && s.held[b] == o && b < |s.mem|
  }

  /** The number of block writes a commit issues. */
  function CommitLength(lh: seq<Word>): nat {
    if lh == [] then 0 else 2 * |lh| + 2
  }

  function CommitHeadsOf(g: Geometry, s: State): Heads
    requires g.start < |s.base| && |s.lh| <= LOGSIZE
  {
    CommitHeads(s.base[g.start], s.lh)
  }

  predicate BeginStep(s: State, o: nat, s': State) {
    CanBegin(s) && o !in s.used && s' == s.(ops := s.ops[o := {}], used := s.used + {o})
  }

  predicate LockStep(g: Geometry, s: State, o: nat, b: nat, s': State) {
    && s.mode.Running? && o in s.ops && b < |s.mem| && b < 0x1_0000_0000 && !InLog(g, b) && b !in s.held
    && s' == s.(held := s.held[b := o])
  }

  predicate ModifyStep(s: State, o: nat, b: nat, data: Block, s': State) {
    Holds(s, o, b) && s' == s.(mem := s.mem[b := data], dirty := s.dirty + {b})
  }

  predicate LogWriteStep(g: Geometry, s: State, o: nat, b: nat, s': State) {
    && Holds(s, o, b) && !TooBig(g, s) && b < 0x1_0000_0000
    && s' ==
         s.(lh := Absorb(s.lh, b), ops := s.ops[o := s.ops[o] + {b}], group := s.group + [Logged(o, b, s.mem[b])],
             dirty := s.dirty - {b})
  }

  /** `brelse`, which does not look whether a change has been logged. */
  predicate UnlockStep(s: State, o: nat, b: nat, s': State) {
    Holds(s, o, b) && s' == s.(held := s.held - {b})
  }

  /** The blocks `bs` as the disk has them. */
  function Forget(mem: Disk, disk: Disk, bs: set<nat>): (r: Disk)
    requires |mem| == |disk|
    ensures |r| == |mem|
  {
    seq(|mem|, (b: nat) requires b < |mem| => if b in bs then disk[b] else mem[b])
  }

  /** Buffers that nobody uses and that are not pinned are taken for other blocks: changes that were not
      logged are gone. */
  predicate RecycleStep(s: State, bs: set<nat>, s': State) {
    && |s.mem| == |s.disk| && bs <= s.dirty && bs !! s.held.Keys && (forall b | b in bs :: b !in s.lh)
    && s' == s.(mem := Forget(s.mem, s.disk, bs), dirty := s.dirty - bs)
  }

  /** The listed blocks that hold something else than was last logged of them. */
  function Strays(s: State): map<nat, Block> {
    map b | b in s.dirty && b in s.lh && b < |s.mem| && LastLogged(s.group, b) != Some(s.mem[b]) :: s.mem[b]
  }

  predicate EndStep(s: State, o: nat, s': State) {
    && s.mode.Running? && o in s.ops && (forall b | b in s.held :: s.held[b] != o)
    && s' == if s.ops.Keys == {o}
             then s.(ops := map[], ended := s.ended + {o}, mode := Committing(0), base := s.disk, snap := s.mem,
                     commits := s.commits + [Group(s.group, s.ended + {o}, Strays(s))],
                     durable := if s.lh == [] then |s.commits| + 1 else s.durable)
             else s.(ops := s.ops - {o}, ended := s.ended + {o})
  }

  /** One round of `write_log`, `write_head` or `install_trans`: the buffer gets the contents, and then the
      disk does. */
  predicate CommitWriteStep(g: Geometry, s: State, s': State) {
    && s.mode.Committing? && s.mode.k < CommitLength(s.lh) && g.start < |s.base| && GoodList(g, |s.mem|, s.lh)
    && var w := CommitWrite(g, CommitHeadsOf(g, s), s.lh, s.mem, s.mode.k);
       && w.bno < |s.disk| && w.bno < |s.mem|
       && s' ==
            s.(disk := Apply(s.disk, w), mem := Apply(s.mem, w), mode := Committing(s.mode.k + 1),
                durable := if s.mode.k == |s.lh| then |s.commits| else s.durable)
  }

  predicate CommitDoneStep(s: State, s': State) {
    && s.mode == Committing(CommitLength(s.lh))
    && s' == s.(mode := Running, lh := [], group := [], ended := {}, dirty := set b | b in s.dirty && b !in s.lh)
  }

  /** Memory is lost; the history forgets the commits that never became durable. */
  predicate CrashStep(s: State, s': State) {
    && s.durable <= |s.commits|
    && s' == s.(mode := Recovering(0), base := s.disk, snap := s.disk, mem := s.disk, lh := [], ops := map[],
                held := map[], dirty := {}, group := [], ended := {}, commits := s.commits[..s.durable])
  }

  predicate RecoverWriteStep(g: Geometry, s: State, s': State) {
    && s.mode.Recovering? && GoodDisk(g, s.base) && s.mode.k < |RecoverWrites(g, s.base)|
    && var w := RecoverWrites(g, s.base)[s.mode.k];
       && w.bno < |s.disk|
       && s' == s.(disk := Apply(s.disk, w), mode := Recovering(s.mode.k + 1))
  }

  predicate RecoverDoneStep(g: Geometry, s: State, s': State) {
    && s.mode.Recovering? && GoodDisk(g, s.base) && s.mode.k == |RecoverWrites(g, s.base)|
    && s' == s.(mode := Running, mem := s.disk)
  }

  predicate Next(g: Geometry, s: State, e: Event, s': State) {
    match e
    case Begin(o) => BeginStep(s, o, s')
    case Lock(o, b) => LockStep(g, s, o, b, s')
    case Modify(o, b, data) => ModifyStep(s, o, b, data, s')
    case LogWrite(o, b) => LogWriteStep(g, s, o, b, s')
    case Unlock(o, b) => UnlockStep(s, o, b, s')
    case Recycle(bs) => RecycleStep(s, bs, s')
    case End(o) => EndStep(s, o, s')
    case CommitStep => CommitWriteStep(g, s, s')
    case CommitDone => CommitDoneStep(s, s')
    case Crash => CrashStep(s, s')
    case RecoverStep => RecoverWriteStep(g, s, s')
    case RecoverDone => RecoverDoneStep(g, s, s')
  }

  /** Booting from a disk: recovery comes first. */
  predicate Boot(g: Geometry, d: Disk, s: State) {
    GoodDisk(g, d) && s == State(d, d, [], map[], map[], {}, Recovering(0), d, d, [], {}, {}, [], 0)
  }

  // ----- what every reachable state satisfies -----

  predicate LoggedOk(g: Geometry, n: nat, w: Logged) {
    w.bno < n && !InLog(g, w.bno)
  }

  /** A group holds writes of its own operations, which all ended and are never outstanding again. */
  predicate GroupOk(g: Geometry, n: nat, c: Group, ops: map<nat, set<nat>>, used: set<nat>) {
    && (forall i | 0 <= i < |c.writes| :: LoggedOk(g, n, c.writes[i]) && c.writes[i].op in c.ops)
    && c.ops !! ops.Keys && c.ops <= used
  }

  predicate GroupsOk(g: Geometry, n: nat, s: State) {
    forall i | 0 <= i < |s.commits| :: GroupOk(g, n, s.commits[i], s.ops, s.used)
  }

  predicate Idle(s: State) {
    s.ops == map[] && s.held == map[]
  }

  predicate CurrentOk(g: Geometry, s: State) {
    && (forall i | 0 <= i < |s.group| ::
          LoggedOk(g, |s.disk|, s.group[i]) && s.group[i].bno in s.lh && s.group[i].op in s.ops.Keys + s.ended)
    && s.ended !! s.ops.Keys && s.ended <= s.used && s.ops.Keys <= s.used
    && (forall b | b in s.dirty :: b < |s.disk| && !InLog(g, b))
    && (forall b | b in s.held :: s.held[b] in s.ops && b < |s.mem| && !InLog(g, b))
    && GoodList(g, |s.disk|, s.lh) && NoRepeats(s.lh)
    && forall b | b in s.lh :: LastLogged(s.group, b).Some?
  }

  /** Blocks not changed since they were logged hold the committed contents with the logged writes on top;
      nobody changes a log block. */
  predicate MemOk(g: Geometry, s: State)
    requires CurrentOk(g, s)
  {
    && |s.mem| == |s.disk|
    && (forall b | 0 <= b < |s.disk| && InLog(g, b) :: s.mem[b] == s.disk[b])
    && forall b | 0 <= b < |s.disk| && !InLog(g, b) && b !in s.dirty :: s.mem[b] == Replay(Home(g, s.disk), s.group)[b]
  }

  /** The home blocks after the commits. */
  function Contents(g: Geometry, init: Disk, commits: seq<Group>): (r: Disk)
    requires AllInHome(|init|, commits)
    ensures |r| == |init|
  {
    ReplayAll(Home(g, init), commits)
  }

  ghost predicate RunningInv(g: Geometry, init: Disk, s: State)
    requires AllInHome(|init|, s.commits) && GoodDisk(g, s.disk)
  {
    && Listed(g, s.disk) == [] && Home(g, s.disk) == Contents(g, init, s.commits)
    && s.durable == |s.commits|
    && CurrentOk(g, s) && MemOk(g, s)
  }

  /** What a commit starts from: memory holds the contents after the last group, the disk those
      before it. */
  ghost predicate Prepared(g: Geometry, init: Disk, base: Disk, lh: seq<Word>, mem: Disk, commits: seq<Group>)
    requires AllInHome(|init|, commits) && 0 < |commits|
  {
    var n := |commits|;
    && GoodDisk(g, base) && GoodList(g, |base|, lh)
    && CanCommit(g, base, CommitHeads(base[g.start], lh), lh, mem)
    && AllInHome(|init|, commits[..n - 1])
    && Home(g, base) == Contents(g, init, commits[..n - 1])
    && Updated(g, base, lh, mem) == Contents(g, init, commits)
  }

  /** The disk after the first `k` writes of a commit. */
  ghost predicate Underway(g: Geometry, disk: Disk, base: Disk, lh: seq<Word>, mem: Disk, k: nat) {
    && GoodDisk(g, base) && |lh| <= LOGSIZE && k <= CommitLength(lh)
    && var hs := CommitHeads(base[g.start], lh);
       CanCommit(g, base, hs, lh, mem) && disk == (if lh == [] then base else DiskDuring(g, base, hs, lh, mem, k))
  }

  /** Memory during a commit: listed blocks as they were, log blocks as on the disk, and the others, unless
      they were changed without being logged, as before the commit. */
  predicate MidMem(g: Geometry, s: State) {
    && |s.mem| == |s.disk| == |s.snap| == |s.base|
    && (forall b: nat | b < |s.disk| && b in s.lh :: s.mem[b] == s.snap[b])
    && (forall b: nat | b < |s.disk| && InLog(g, b) :: s.mem[b] == s.disk[b])
    && (forall b: nat | b < |s.disk| && !InLog(g, b) && b !in s.lh && b !in s.dirty :: s.mem[b] == s.base[b])
    && forall b | b in s.dirty :: b < |s.disk| && !InLog(g, b)
  }

  ghost predicate CommittingInv(g: Geometry, init: Disk, s: State, k: nat)
    requires AllInHome(|init|, s.commits)
  {
    var n := |s.commits|;
    && 0 < n && s.commits[n - 1].ops == s.ended && Idle(s) && s.ended <= s.used
    && Prepared(g, init, s.base, s.lh, s.snap, s.commits)
    && Underway(g, s.disk, s.base, s.lh, s.snap, k) && MidMem(g, s)
    && s.durable == if s.lh == [] || k > |s.lh| then n else n - 1
  }

  ghost predicate RecoveringInv(g: Geometry, init: Disk, s: State, k: nat)
    requires AllInHome(|init|, s.commits)
  {
    && Idle(s) && s.dirty == {} && s.lh == [] && s.group == [] && s.ended == {}
    && GoodDisk(g, s.base) && InRange(s.base, RecoverWrites(g, s.base)) && k <= |RecoverWrites(g, s.base)|
    && s.disk == After(s.base, RecoverWrites(g, s.base), k)
    && Logical(g, s.base) == Contents(g, init, s.commits)
    && s.durable == |s.commits|
  }

  ghost predicate Inv(g: Geometry, init: Disk, s: State) {
    && |s.disk| == |init| && GoodDisk(g, s.disk)
    && AllInHome(|init|, s.commits) && GroupsOk(g, |init|, s)
    && match s.mode
       case Running => RunningInv(g, init, s)
       case Committing(k) => CommittingInv(g, init, s, k)
       case Recovering(k) => RecoveringInv(g, init, s, k)
  }

  // ----- the invariant is kept -----

  /** The contents before any commit are those the boot disk stands for. */
  lemma BootInv(g: Geometry, d: Disk, s: State)
    requires Boot(g, d, s)
    ensures Inv(g, Recovered(g, d), s)
  {
    RecoverInRange(g, d);
    FullRecovery(g, d);
  }

  lemma {:induction false} ReplaySnoc(home: Disk, ws: seq<Logged>, w: Logged)
    requires InHome(|home|, ws) && w.bno < |home|
    ensures InHome(|home|, ws + [w])
    ensures Replay(home, ws + [w]) == Replay(home, ws)[w.bno := w.data]
  {
    assert (ws + [w])[..|ws|] == ws;
  }

  lemma {:induction false} ReplayUnwritten(home: Disk, ws: seq<Logged>, b: nat)
    requires InHome(|home|, ws) && b < |home| && forall i | 0 <= i < |ws| :: ws[i].bno != b
    ensures Replay(home, ws)[b] == home[b]
    decreases |ws|
  {
    if ws != [] {
      ReplayUnwritten(home, ws[..|ws| - 1], b);
    }
  }

  lemma ContentsSnoc(g: Geometry, init: Disk, commits: seq<Group>, c: Group)
    requires AllInHome(|init|, commits) && InHome(|init|, c.writes)
    ensures AllInHome(|init|, commits + [c])
    ensures Contents(g, init, commits + [c]) == Effect(Contents(g, init, commits), c)
  {
    assert (commits + [c])[..|commits|] == commits;
  }

  lemma BeginKeeps(g: Geometry, init: Disk, s: State, o: nat, s': State)
    requires Inv(g, init, s) && BeginStep(s, o, s')
    ensures Inv(g, init, s')
  {
    BeginGroups(g, |init|, s, o, s');
  }

  lemma BeginGroups(g: Geometry, n: nat, s: State, o: nat, s': State)
    requires GroupsOk(g, n, s) && BeginStep(s, o, s')
    ensures GroupsOk(g, n, s')
  {
    forall i | 0 <= i < |s'.commits|
      ensures GroupOk(g, n, s'.commits[i], s'.ops, s'.used)
    {
      assert GroupOk(g, n, s.commits[i], s.ops, s.used);
    }
  }

  lemma LockKeeps(g: Geometry, init: Disk, s: State, o: nat, b: nat, s': State)
    requires Inv(g, init, s) && LockStep(g, s, o, b, s')
    ensures Inv(g, init, s')
  {
  }

  lemma ModifyKeeps(g: Geometry, init: Disk, s: State, o: nat, b: nat, data: Block, s': State)
    requires Inv(g, init, s) && ModifyStep(s, o, b, data, s')
    ensures Inv(g, init, s')
  {
  }

  lemma UnlockKeeps(g: Geometry, init: Disk, s: State, o: nat, b: nat, s': State)
    requires Inv(g, init, s) && UnlockStep(s, o, b, s')
    ensures Inv(g, init, s')
  {
  }

  lemma RecycleKeeps(g: Geometry, init: Disk, s: State, bs: set<nat>, s': State)
    requires Inv(g, init, s) && RecycleStep(s, bs, s')
    ensures Inv(g, init, s')
  {
    if s.mode.Running? {
      forall b: nat | b in bs
        ensures b < |s.disk| && Replay(Home(g, s.disk), s.group)[b] == s.disk[b]
      {
        ReplayUnwritten(Home(g, s.disk), s.group, b);
      }
    } else if s.mode.Committing? {
      RecycleMid(g, s, bs, s', s.mode.k);
    }
  }

  lemma RecycleMid(g: Geometry, s: State, bs: set<nat>, s': State, k: nat)
    requires MidMem(g, s) && Underway(g, s.disk, s.base, s.lh, s.snap, k) && RecycleStep(s, bs, s')
    ensures MidMem(g, s')
  {
    CommitAtomic(g, s.base, CommitHeads(s.base[g.start], s.lh), s.lh, s.snap, k);
  }

  lemma LogWriteKeeps(g: Geometry, init: Disk, s: State, o: nat, b: nat, s': State)
    requires Inv(g, init, s) && LogWriteStep(g, s, o, b, s')
    ensures Inv(g, init, s')
  {
    var w := Logged(o, b, s.mem[b]);
    assert InHome(|s.disk|, s.group);
    ReplaySnoc(Home(g, s.disk), s.group, w);
    LogWriteGroups(g, |init|, s, o, b, s');
    LogWriteCurrent(g, s, o, b, s');
  }

  lemma LogWriteGroups(g: Geometry, n: nat, s: State, o: nat, b: nat, s': State)
    requires GroupsOk(g, n, s) && LogWriteStep(g, s, o, b, s')
    ensures GroupsOk(g, n, s')
  {
    assert s'.ops.Keys == s.ops.Keys;
    forall i | 0 <= i < |s'.commits|
      ensures GroupOk(g, n, s'.commits[i], s'.ops, s'.used)
    {
      assert GroupOk(g, n, s.commits[i], s.ops, s.used);
    }
  }

  lemma LogWriteCurrent(g: Geometry, s: State, o: nat, b: nat, s': State)
    requires CurrentOk(g, s) && |s.mem| == |s.disk| && LogWriteStep(g, s, o, b, s')
    ensures CurrentOk(g, s')
  {
    assert s'.ops.Keys == s.ops.Keys;
    assert forall x :: x in s.lh ==> x in s'.lh;
    forall x | x in s'.lh
      ensures LastLogged(s'.group, x).Some?
    {
      LastSnoc(s.group, Logged(o, b, s.mem[b]), x);
    }
  }

  lemma LastSnoc(ws: seq<Logged>, w: Logged, b: nat)
    ensures LastLogged(ws + [w], b) == if w.bno == b then Some(w.data) else LastLogged(ws, b)
  {
    assert (ws + [w])[..|ws|] == ws;
  }

  lemma EndKeeps(g: Geometry, init: Disk, s: State, o: nat, s': State)
    requires Inv(g, init, s) && EndStep(s, o, s')
    ensures Inv(g, init, s')
  {
    EndGroups(g, |init|, s, o, s');
    if s.ops.Keys == {o} {
      EndStartsCommit(g, init, s, o, s');
    } else {
      assert s'.ops.Keys == s.ops.Keys - {o};
    }
  }

  lemma EndGroups(g: Geometry, n: nat, s: State, o: nat, s': State)
    requires GroupsOk(g, n, s) && CurrentOk(g, s) && |s.disk| == n && EndStep(s, o, s')
    ensures GroupsOk(g, n, s')
  {
    forall i | 0 <= i < |s'.commits|
      ensures GroupOk(g, n, s'.commits[i], s'.ops, s'.used)
    {
      if i < |s.commits| {
        assert GroupOk(g, n, s.commits[i], s.ops, s.used);
      }
    }
  }

  /** When the last outstanding operation ends, no block is held, so the listed blocks hold the committed
      contents with the whole group's writes on top, and on top of those what was never logged. */
  lemma EndStartsCommit(g: Geometry, init: Disk, s: State, o: nat, s': State)
    requires Inv(g, init, s) && EndStep(s, o, s') && s.ops.Keys == {o} && AllInHome(|init|, s'.commits)
    ensures CommittingInv(g, init, s', 0)
  {
    var c := Group(s.group, s.ended + {o}, Strays(s));
    assert s.held.Keys == {};
    assert s'.commits[..|s'.commits| - 1] == s.commits;
    assert InHome(|init|, c.writes);
    ContentsSnoc(g, init, s.commits, c);
    CommitHeadsOk(s.disk[g.start], s.lh);
    UpdatedIsEffect(g, s, c);
    if s.lh != [] {
      DiskDuringStart(g, s.disk, CommitHeadsOf(g, s'), s.lh, s.mem);
    }
    StartMid(g, s, s');
  }

  lemma StartMid(g: Geometry, s: State, s': State)
    requires CurrentOk(g, s) && MemOk(g, s)
    requires s'.disk == s'.base == s.disk && s'.mem == s'.snap == s.mem && s'.lh == s.lh && s'.dirty == s.dirty
    ensures MidMem(g, s')
  {
    forall b: nat | b < |s.disk| && !InLog(g, b) && b !in s.lh && b !in s.dirty
      ensures s.mem[b] == s.disk[b]
    {
      ReplayUnwritten(Home(g, s.disk), s.group, b);
    }
  }

  lemma {:induction false} ReplayLast(home: Disk, ws: seq<Logged>, b: nat)
    requires InHome(|home|, ws) && b < |home|
    ensures var x := LastLogged(ws, b); Replay(home, ws)[b] == if x.Some? then x.value else home[b]
    decreases |ws|
  {
    if ws != [] && ws[|ws| - 1].bno != b {
      ReplayLast(home, ws[..|ws| - 1], b);
    }
  }

  lemma UpdatedIsEffect(g: Geometry, s: State, c: Group)
    requires CurrentOk(g, s) && MemOk(g, s) && c.writes == s.group && c.stray == Strays(s)
    ensures Updated(g, s.disk, s.lh, s.mem) == Effect(Home(g, s.disk), c)
  {
    var home := Home(g, s.disk);
    forall b | 0 <= b < |s.disk|
      ensures Updated(g, s.disk, s.lh, s.mem)[b] == Effect(home, c)[b]
    {
      ReplayLast(home, s.group, b);
      if InLog(g, b) || b !in s.lh {
        ReplayUnwritten(home, s.group, b);
      }
    }
  }

  /** A commit makes durable exactly what was logged if and only if, when it starts, every listed block that
      has been changed since holds what it was last logged with. */
  lemma CommitExact(g: Geometry, init: Disk, s: State, o: nat, s': State)
    requires Inv(g, init, s) && EndStep(s, o, s') && s.ops.Keys == {o}
    ensures CurrentOk(g, s) && |s.mem| == |s.disk|
    ensures Updated(g, s.disk, s.lh, s.mem) == Replay(Home(g, s.disk), s.group) <==>
              forall b | b in s.lh && b in s.dirty :: LastLogged(s.group, b) == Some(s.mem[b])
    ensures s'.commits[|s'.commits| - 1].stray == map[] <==>
              forall b | b in s.lh && b in s.dirty :: LastLogged(s.group, b) == Some(s.mem[b])
  {
    var home, c := Home(g, s.disk), Group(s.group, s.ended + {o}, Strays(s));
    UpdatedIsEffect(g, s, c);
    if b :| b in s.lh && b in s.dirty && LastLogged(s.group, b) != Some(s.mem[b]) {
      ReplayLast(home, s.group, b);
      assert b in Strays(s) && Effect(home, c)[b] == s.mem[b];
    } else {
      assert Strays(s) == map[];
      assert Overlay(Replay(home, s.group), map[]) == Replay(home, s.group);
    }
  }

  lemma CommitWriteKeeps(g: Geometry, init: Disk, s: State, s': State)
    requires Inv(g, init, s) && CommitWriteStep(g, s, s')
    ensures Inv(g, init, s')
  {
    hide Prepared, Underway, GoodDisk, MidMem, GroupOk, AllInHome, CommitWrite;
    CommitWriteMem(g, s, s');
    CommitWriteDisk(g, s.base, s.lh, s.snap, s.mode.k, s.disk, s'.disk);
  }

  /** The write comes from blocks that are as they were when the commit started. */
  lemma CommitWriteMem(g: Geometry, s: State, s': State)
    requires MidMem(g, s) && CommitWriteStep(g, s, s')
    ensures CommitWrite(g, CommitHeadsOf(g, s), s.lh, s.mem, s.mode.k) ==
              CommitWrite(g, CommitHeadsOf(g, s), s.lh, s.snap, s.mode.k)
    ensures MidMem(g, s')
  {
    forall i: nat | i < |s.lh|
      ensures s.lh[i] < |s.disk| && s.mem[s.lh[i]] == s.snap[s.lh[i]]
    {
      assert s.lh[i] in s.lh;
    }
  }

  lemma CommitWriteDisk(g: Geometry, base: Disk, lh: seq<Word>, mem: Disk, k: nat, disk: Disk, disk': Disk)
    requires Underway(g, disk, base, lh, mem, k) && k < CommitLength(lh)
    requires var w := CommitWrite(g, CommitHeads(base[g.start], lh), lh, mem, k);
             w.bno < |disk| && disk' == Apply(disk, w)
    ensures Underway(g, disk', base, lh, mem, k + 1) && GoodDisk(g, disk') && |disk'| == |disk|
  {
    var hs := CommitHeads(base[g.start], lh);
    DiskDuringStep(g, base, hs, lh, mem, k);
    CommitAtomic(g, base, hs, lh, mem, k + 1);
  }

  lemma CommitDoneKeeps(g: Geometry, init: Disk, s: State, s': State)
    requires Inv(g, init, s) && CommitDoneStep(s, s')
    ensures Inv(g, init, s')
  {
    DoneDisk(g, s);
    hide Underway, GoodDisk, GroupOk, AllInHome, CanCommit, Updated;
    forall b: nat | b < |s.disk| && !InLog(g, b) && b !in s'.dirty
      ensures s.mem[b] == s.disk[b]
    {
    }
  }

  /** A finished commit has put the listed blocks in their places. */
  lemma DoneDisk(g: Geometry, s: State)
    requires Underway(g, s.disk, s.base, s.lh, s.snap, CommitLength(s.lh)) && s.mode == Committing(CommitLength(s.lh))
    ensures |s.disk| == |s.base| == |s.snap| && GoodDisk(g, s.disk) && Listed(g, s.disk) == []
    ensures Home(g, s.disk) == Updated(g, s.base, s.lh, s.snap)
    ensures forall b: nat | b < |s.disk| && !InLog(g, b) :: s.disk[b] == if b in s.lh then s.snap[b] else s.base[b]
  {
    if s.lh != [] {
      LogDisk.CommitDone(g, s.base, CommitHeadsOf(g, s), s.lh, s.snap);
    }
    forall b: nat | b < |s.disk| && !InLog(g, b)
      ensures s.disk[b] == if b in s.lh then s.snap[b] else s.base[b]
    {
      assert Home(g, s.disk)[b] == Updated(g, s.base, s.lh, s.snap)[b];
    }
  }

  lemma CrashKeeps(g: Geometry, init: Disk, s: State, s': State)
    requires Inv(g, init, s) && CrashStep(s, s')
    ensures Inv(g, init, s')
  {
    Recoverable(g, init, s);
    RecoverInRange(g, s.disk);
    FullRecovery(g, s.disk);
    forall i | 0 <= i < |s'.commits|
      ensures GroupOk(g, |init|, s'.commits[i], s'.ops, s'.used)
    {
      assert GroupOk(g, |init|, s.commits[i], s.ops, s.used);
    }
  }

  /** In every reachable state a crash now would recover to exactly the first `durable` group
      commits, which are all of them but possibly the one being written. */
  lemma Recoverable(g: Geometry, init: Disk, s: State)
    requires Inv(g, init, s)
    ensures |s.commits| - 1 <= s.durable <= |s.commits|
    ensures AllInHome(|init|, s.commits[..s.durable])
    ensures Home(g, Recovered(g, s.disk)) == Contents(g, init, s.commits[..s.durable])
  {
    FullRecovery(g, s.disk);
    match s.mode
    case Running =>
      assert s.commits[..s.durable] == s.commits;
    case Committing(k) =>
      CommitAtomic(g, s.base, CommitHeadsOf(g, s), s.lh, s.snap, k);
      assert s.commits[..|s.commits|] == s.commits;
    case Recovering(k) =>
      RecoveringLogical(g, s, k);
      assert s.commits[..s.durable] == s.commits;
  }

  lemma RecoveringLogical(g: Geometry, s: State, k: nat)
    requires GoodDisk(g, s.base) && InRange(s.base, RecoverWrites(g, s.base)) && k <= |RecoverWrites(g, s.base)|
    requires s.disk == After(s.base, RecoverWrites(g, s.base), k)
    ensures GoodDisk(g, s.disk) && Logical(g, s.disk) == Logical(g, s.base)
    ensures k == |RecoverWrites(g, s.base)| ==> Listed(g, s.disk) == [] && Home(g, s.disk) == Logical(g, s.base)
  {
    if k <= |Listed(g, s.base)| {
      PartialRecovery(g, s.base, k);
    } else {
      FullRecovery(g, s.base);
    }
  }

  lemma RecoverWriteKeeps(g: Geometry, init: Disk, s: State, s': State)
    requires Inv(g, init, s) && RecoverWriteStep(g, s, s')
    ensures Inv(g, init, s')
  {
    RecoveringLogical(g, s', s'.mode.k);
  }

  lemma RecoverDoneKeeps(g: Geometry, init: Disk, s: State, s': State)
    requires Inv(g, init, s) && RecoverDoneStep(g, s, s')
    ensures Inv(g, init, s')
  {
    RecoveringLogical(g, s, s.mode.k);
  }

  lemma NextKeeps(g: Geometry, init: Disk, s: State, e: Event, s': State)
    requires Inv(g, init, s) && Next(g, s, e, s')
    ensures Inv(g, init, s')
  {
    hide Inv, BeginStep, LockStep, ModifyStep, LogWriteStep, UnlockStep, RecycleStep, EndStep, CommitWriteStep;
    hide CommitDoneStep, CrashStep, RecoverWriteStep, RecoverDoneStep;
    match e
    case Begin(o) => BeginKeeps(g, init, s, o, s');
    case Lock(o, b) => LockKeeps(g, init, s, o, b, s');
    case Modify(o, b, data) => ModifyKeeps(g, init, s, o, b, data, s');
    case LogWrite(o, b) => LogWriteKeeps(g, init, s, o, b, s');
    case Unlock(o, b) => UnlockKeeps(g, init, s, o, b, s');
    case Recycle(bs) => RecycleKeeps(g, init, s, bs, s');
    case End(o) => EndKeeps(g, init, s, o, s');
    case CommitStep => CommitWriteKeeps(g, init, s, s');
    case CommitDone => CommitDoneKeeps(g, init, s, s');
    case Crash => CrashKeeps(g, init, s, s');
    case RecoverStep => RecoverWriteKeeps(g, init, s, s');
    case RecoverDone => RecoverDoneKeeps(g, init, s, s');
  }

  // ----- whole runs -----

  /** A run from booting disk `d`. */
  predicate IsRun(g: Geometry, d: Disk, ss: seq<State>, es: seq<Event>) {
    && |ss| == |es| + 1
    && Boot(g, d, ss[0])
    && forall i | 0 <= i < |es| :: Next(g, ss[i], es[i], ss[i + 1])
  }

  lemma {:induction false} RunInv(g: Geometry, d: Disk, ss: seq<State>, es: seq<Event>, i: nat)
    requires IsRun(g, d, ss, es) && i < |ss|
    ensures GoodDisk(g, d) && Inv(g, Recovered(g, d), ss[i])
  {
    hide Inv, Next;
    if i == 0 {
      BootInv(g, d, ss[0]);
    } else {
      RunInv(g, d, ss, es, i - 1);
      NextKeeps(g, Recovered(g, d), ss[i - 1], es[i - 1], ss[i]);
    }
  }

  /** At every point of every run, a crash would recover to the boot contents with the first `durable` group
      commits applied in order, each with its logged writes and what it took of unlogged changes; only the
      last group can be missing; and no group holds a write of an operation that is still outstanding. */
  lemma GroupCommitSafe(g: Geometry, d: Disk, ss: seq<State>, es: seq<Event>, i: nat)
    requires IsRun(g, d, ss, es) && i < |ss|
    ensures GoodDisk(g, d) && GoodDisk(g, ss[i].disk)
    ensures |ss[i].commits| - 1 <= ss[i].durable <= |ss[i].commits|
    ensures AllInHome(|d|, ss[i].commits[..ss[i].durable])
    ensures Home(g, Recovered(g, ss[i].disk)) == ReplayAll(Logical(g, d), ss[i].commits[..ss[i].durable])
    ensures forall k, j | 0 <= k < |ss[i].commits| && 0 <= j < |ss[i].commits[k].writes| ::
              ss[i].commits[k].writes[j].op in ss[i].commits[k].ops && ss[i].commits[k].writes[j].op !in ss[i].ops
  {
    RunInv(g, d, ss, es, i);
    FullRecovery(g, d);
    Recoverable(g, Recovered(g, d), ss[i]);
    forall k | 0 <= k < |ss[i].commits|
      ensures GroupOk(g, |d|, ss[i].commits[k], ss[i].ops, ss[i].used)
    {
    }
  }

  /** Not a commit that starts with a listed block changed since it was logged. */
  predicate StartsClean(s: State, e: Event) {
    e.End? && s.ops.Keys == {e.o} ==> forall b | b in s.lh :: b !in s.dirty
  }

  predicate NoStrays(commits: seq<Group>) {
    forall k | 0 <= k < |commits| :: commits[k].stray == map[]
  }

  lemma {:induction false} RunNoStrays(g: Geometry, d: Disk, ss: seq<State>, es: seq<Event>, i: nat)
    requires IsRun(g, d, ss, es) && i < |ss| && forall j | 0 <= j < i :: StartsClean(ss[j], es[j])
    ensures NoStrays(ss[i].commits)
  {
    if i > 0 {
      RunNoStrays(g, d, ss, es, i - 1);
      assert Next(g, ss[i - 1], es[i - 1], ss[i]) && StartsClean(ss[i - 1], es[i - 1]);
      StrayStep(g, ss[i - 1], es[i - 1], ss[i]);
    }
  }

  lemma StrayStep(g: Geometry, s: State, e: Event, s': State)
    requires NoStrays(s.commits) && Next(g, s, e, s') && StartsClean(s, e)
    ensures NoStrays(s'.commits)
  {
    if e.End? && s.ops.Keys == {e.o} {
      assert Strays(s) == map[];
    }
  }

  lemma {:induction false} ReplayWithoutStrays(home: Disk, commits: seq<Group>)
    requires AllInHome(|home|, commits) && NoStrays(commits)
    ensures ReplayAll(home, commits) == ReplayLogged(home, commits)
    decreases |commits|
  {
    if commits != [] {
      var front, c := commits[..|commits| - 1], commits[|commits| - 1];
      assert forall i | 0 <= i < |front| :: front[i] == commits[i];
      ReplayWithoutStrays(home, front);
      assert InHome(|home|, c.writes) && c.stray == map[];
      assert Effect(ReplayAll(home, front), c) == Replay(ReplayAll(home, front), c.writes);
    }
  }

  /** Along every run in which no commit starts with a listed block changed since it was logged, a crash
      recovers to the replay of logged writes alone. */
  lemma LoggedWritesSafe(g: Geometry, d: Disk, ss: seq<State>, es: seq<Event>, i: nat)
    requires IsRun(g, d, ss, es) && i < |ss| && forall j | 0 <= j < i :: StartsClean(ss[j], es[j])
    ensures GoodDisk(g, d) && GoodDisk(g, ss[i].disk) && ss[i].durable <= |ss[i].commits|
    ensures AllInHome(|d|, ss[i].commits[..ss[i].durable])
    ensures Home(g, Recovered(g, ss[i].disk)) == ReplayLogged(Logical(g, d), ss[i].commits[..ss[i].durable])
  {
    GroupCommitSafe(g, d, ss, es, i);
    RunNoStrays(g, d, ss, es, i);
    ReplayWithoutStrays(Logical(g, d), ss[i].commits[..ss[i].durable]);
  }

  /** Only a group being written can be missing from the disk. */
  predicate Bounded(s: State) {
    |s.commits| - 1 <= s.durable <= |s.commits| && (s.mode.Running? ==> s.durable == |s.commits|)
  }

  lemma InvBounded(g: Geometry, init: Disk, s: State)
    requires Inv(g, init, s)
    ensures Bounded(s)
  {
  }

  function DurablePart(s: State): seq<Group>
    requires s.durable <= |s.commits|
  {
    s.commits[..s.durable]
  }

  lemma DurableStep(g: Geometry, s: State, e: Event, s': State)
    requires Bounded(s) && Bounded(s') && Next(g, s, e, s')
    ensures DurablePart(s) <= DurablePart(s')
  {
  }

  /** What is durable stays durable, across crashes too. */
  lemma {:induction false} DurableGrows(g: Geometry, d: Disk, ss: seq<State>, es: seq<Event>, i: nat, j: nat)
    requires IsRun(g, d, ss, es) && i <= j < |ss|
    ensures Bounded(ss[i]) && Bounded(ss[j]) && DurablePart(ss[i]) <= DurablePart(ss[j])
  {
    RunBounded(g, d, ss, es, j);
    if i < j {
      DurableGrows(g, d, ss, es, i, j - 1);
      DurableStep(g, ss[j - 1], es[j - 1], ss[j]);
    }
  }

  lemma RunBounded(g: Geometry, d: Disk, ss: seq<State>, es: seq<Event>, i: nat)
    requires IsRun(g, d, ss, es) && i < |ss|
    ensures Bounded(ss[i])
  {
    RunInv(g, d, ss, es, i);
    InvBounded(g, Recovered(g, d), ss[i]);
  }

  /** Operation `o` has ended and its group has not been lost. */
  predicate Accounted(s: State, o: nat) {
    o in s.ended || exists k :: 0 <= k < |s.commits| && o in s.commits[k].ops
  }

  /** A group under way is the last one. */
  lemma EndedIsLast(g: Geometry, init: Disk, s: State)
    requires Inv(g, init, s) && s.mode.Committing?
    ensures 0 < |s.commits| && s.commits[|s.commits| - 1].ops == s.ended
  {
  }

  lemma AccountedStep(g: Geometry, init: Disk, s: State, e: Event, s': State, o: nat)
    requires Inv(g, init, s) && Next(g, s, e, s') && e != Crash && (Accounted(s, o) || e == End(o))
    ensures Accounted(s', o)
  {
    hide Inv, Next;
    HistoryKept(g, s, e, s');
    if e == CommitDone {
      EndedIsLast(g, init, s);
    }
    if k :| 0 <= k < |s.commits| && o in s.commits[k].ops {
      assert o in s'.commits[k].ops;
    }
  }

  /** Without a crash nothing is forgotten. */
  lemma HistoryKept(g: Geometry, s: State, e: Event, s': State)
    requires Next(g, s, e, s') && e != Crash
    ensures s.commits <= s'.commits && (e.End? ==> e.o in s'.ended)
    ensures if e == CommitDone then s.mode.Committing? else s.ended <= s'.ended
  {
    hide CommitWrite, GoodDisk, GoodList, RecoverWrites;
  }

  lemma {:induction false} AccountedUntil(g: Geometry, d: Disk, ss: seq<State>, es: seq<Event>, i: nat, j: nat, o: nat)
    requires IsRun(g, d, ss, es) && i < j <= |es| && es[i] == End(o) && forall k | i < k < j :: es[k] != Crash
    ensures Accounted(ss[j], o)
  {
    hide Inv, Next, Accounted;
    RunInv(g, d, ss, es, j - 1);
    if i + 1 < j {
      AccountedUntil(g, d, ss, es, i, j - 1, o);
    }
    AccountedStep(g, Recovered(g, d), ss[j - 1], es[j - 1], ss[j], o);
  }

  /** When a committing `end_op` returns, every operation that ended before it, with no crash in
      between, is in a durable group; and it is in one at every later point of the run. */
  lemma CommittedIsDurable(g: Geometry, d: Disk, ss: seq<State>, es: seq<Event>, i: nat, j: nat, later: nat, o: nat)
    requires IsRun(g, d, ss, es) && i < j < |es| && es[i] == End(o) && es[j] == CommitDone
    requires (forall k | i < k < j :: es[k] != Crash) && j < later < |ss|
    ensures Bounded(ss[later])
    ensures exists k :: 0 <= k < ss[later].durable && o in ss[later].commits[k].ops
  {
    AccountedUntil(g, d, ss, es, i, j + 1, o);
    RunInv(g, d, ss, es, j + 1);
    var s := ss[j + 1];
    assert s.ended == {} && s.durable == |s.commits|;
    var k :| 0 <= k < |s.commits| && o in s.commits[k].ops;
    DurableGrows(g, d, ss, es, j + 1, later);
    assert DurablePart(s)[k] == DurablePart(ss[later])[k];
  }
}
