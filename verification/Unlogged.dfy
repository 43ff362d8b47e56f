/** A change released without being logged can become durable: a run that shows it. */
module Unlogged {
  import opened Words
  import opened LogDisk
  import opened GroupCommit
  import opened Reservation

  lemma CanWrite(g: Geometry, init: Disk, s: State) returns (s': State)
    requires Inv(g, init, s) && s.mode.Committing? && s.mode.k < CommitLength(s.lh)
    ensures CommitWriteStep(g, s, s') && s'.commits == s.commits && s'.lh == s.lh && s'.mode == Committing(s.mode.k + 1)
  {
    var w := CommitWrite(g, CommitHeadsOf(g, s), s.lh, s.mem, s.mode.k);
    s' := s.(disk := Apply(s.disk, w), mem := Apply(s.mem, w), mode := Committing(s.mode.k + 1),
             durable := if s.mode.k == |s.lh| then |s.commits| else s.durable);
  }

  /** A commit under way can be finished. */
  lemma {:induction false} ReachDone(g: Geometry, d: Disk, s: State) returns (s': State)
    requires Reachable(g, d, s) && s.mode.Committing? && s.mode.k <= CommitLength(s.lh)
    ensures Reachable(g, d, s') && s'.mode.Running? && s'.commits == s.commits
    decreases CommitLength(s.lh) - s.mode.k
  {
    hide Reachable, Inv;
    ReachableInv(g, d, s);
    if s.mode.k < CommitLength(s.lh) {
      var t := CanWrite(g, Recovered(g, d), s);
      hide CommitWriteStep;
      ReachStep(g, d, s, CommitStep, t);
      s' := ReachDone(g, d, t);
    } else {
      s' := s.(mode := Running, lh := [], group := [], ended := {}, dirty := set b | b in s.dirty && b !in s.lh);
      ReachStep(g, d, s, CommitDone, s');
    }
  }

  /** Two operations have begun. */
  lemma ReachTwo(g: Geometry, d: Disk)
    requires GoodDisk(g, d)
    ensures Reachable(g, d, Ready(Recovered(g, d), d, map[0 := {}, 1 := {}]))
  {
    hide Reachable, Recovered, GoodDisk;
    var r := Recovered(g, d);
    var none: map<nat, set<nat>> := map[];
    ReachReady(g, d);
    ReachBegin(g, d, r, none, 0);
    ReachBegin(g, d, r, none[0 := {}], 1);
    assert none[0 := {}][1 := {}] == map[0 := {}, 1 := {}];
  }

  /** Operation 0 has logged `a` as block `b`. */
  function FirstLogged(r: Disk, d: Disk, b: Word, a: Block): State
    requires b < |r|
  {
    State(r, r[b := a], [b], map[0 := {b}, 1 := {}], map[], {}, Running, d, d, [Logged(0, b, a)], {}, {0, 1}, [], 0)
  }

  lemma ReachFirst(g: Geometry, d: Disk, r: Disk, b: Word, a: Block)
    requires Reachable(g, d, Ready(r, d, map[0 := {}, 1 := {}])) && b < |r| && !InLog(g, b) && 2 <= g.size
    ensures Reachable(g, d, FirstLogged(r, d, b, a))
  {
    hide Reachable;
    var s := Ready(r, d, map[0 := {}, 1 := {}]);
    var s1 := s.(held := map[b as nat := 0]);
    var s2 := s1.(mem := r[b := a], dirty := {b});
    var s3 := FirstLogged(r, d, b, a).(held := map[b as nat := 0]);
    ReachStep(g, d, s, Lock(0, b), s1);
    ReachStep(g, d, s1, Modify(0, b, a), s2);
    assert s2.ops[0 := s2.ops[0] + {b as nat}] == s3.ops && s2.dirty - {b} == {};
    assert s.ops.Keys == {0, 1};
    ReachStep(g, d, s2, LogWrite(0, b), s3);
    assert s3.held - {b} == map[];
    ReachStep(g, d, s3, Unlock(0, b), FirstLogged(r, d, b, a));
  }

  /** Operation 1 has changed the block to `x` and released it. */
  function Released(r: Disk, d: Disk, b: Word, a: Block, x: Block): State
    requires b < |r|
  {
    FirstLogged(r, d, b, a).(mem := r[b := x], dirty := {b})
  }

  lemma ReachReleased(g: Geometry, d: Disk, r: Disk, b: Word, a: Block, x: Block)
    requires b < |r| && Reachable(g, d, FirstLogged(r, d, b, a)) && !InLog(g, b)
    ensures Reachable(g, d, Released(r, d, b, a, x))
  {
    hide Reachable;
    var s := FirstLogged(r, d, b, a);
    var s1 := s.(held := map[b as nat := 1]);
    var s2 := s1.(mem := r[b := x], dirty := {b});
    ReachStep(g, d, s, Lock(1, b), s1);
    assert r[b := a][b := x] == r[b := x];
    ReachStep(g, d, s1, Modify(1, b, x), s2);
    assert s2.held - {b} == map[];
    ReachStep(g, d, s2, Unlock(1, b), Released(r, d, b, a, x));
  }

  lemma ReachCommitting(g: Geometry, d: Disk, r: Disk, b: Word, a: Block, x: Block) returns (s: State)
    requires b < |r| && Reachable(g, d, Released(r, d, b, a, x)) && a != x
    ensures Reachable(g, d, s) && s.mode == Committing(0)
    ensures s.commits == [Group([Logged(0, b, a)], {0, 1}, map[b as nat := x])]
  {
    hide Reachable;
    var s0 := Released(r, d, b, a, x);
    var s1 := s0.(ops := map[0 := {b as nat}], ended := {1});
    assert s0.ops.Keys == {0, 1} && s0.ops - {1} == s1.ops;
    ReachStep(g, d, s0, End(1), s1);
    assert s1.ops.Keys == {0};
    assert Strays(s1) == map[b as nat := x];
    assert s1.ended + {0} == {0, 1};
    s := s1.(ops := map[], ended := {0, 1}, mode := Committing(0), base := r, snap := s1.mem,
             commits := [Group([Logged(0, b, a)], {0, 1}, map[b as nat := x])]);
    ReachStep(g, d, s1, End(0), s);
  }

  /** One operation logs a block. Another one changes it, fails, and releases it without logging it. The
      commit of the two makes that change durable: after any crash the block is what nobody logged. */
  lemma UnloggedCommitted(g: Geometry, d: Disk, a: Block, x: Block) returns (s: State)
    requires GoodDisk(g, d) && 2 <= g.size && FirstHome(g) < |d| && FirstHome(g) < 0x1_0000_0000 && a != x
    ensures Reachable(g, d, s) && s.mode.Running? && s.durable == |s.commits| && GoodDisk(g, s.disk)
    ensures |s.disk| == |d| && AllInHome(|d|, s.commits) && |s.commits| == 1
    ensures s.commits[0].writes == [Logged(0, FirstHome(g), a)]
    ensures ReplayLogged(Logical(g, d), s.commits)[FirstHome(g)] == a
    ensures Home(g, Recovered(g, s.disk))[FirstHome(g)] == x
  {
    hide Reachable, Inv, Contents;
    var b: Word, r := FirstHome(g), Recovered(g, d);
    ReachTwo(g, d);
    ReachFirst(g, d, r, b, a);
    ReachReleased(g, d, r, b, a, x);
    var c := ReachCommitting(g, d, r, b, a, x);
    s := ReachDone(g, d, c);
    ReachableInv(g, d, s);
    Durable(g, d, s);
    OneGroup(Home(g, r), b, a, x);
    FullRecovery(g, d);
  }

  lemma Durable(g: Geometry, d: Disk, s: State)
    requires GoodDisk(g, d) && Inv(g, Recovered(g, d), s) && s.mode.Running?
    ensures s.durable == |s.commits| && GoodDisk(g, s.disk) && |s.disk| == |d| && AllInHome(|d|, s.commits)
    ensures Home(g, Recovered(g, s.disk)) == ReplayAll(Home(g, Recovered(g, d)), s.commits)
  {
    Recoverable(g, Recovered(g, d), s);
    assert s.commits[..|s.commits|] == s.commits;
  }

  lemma OneGroup(home: Disk, b: Word, a: Block, x: Block)
    requires b < |home|
    ensures var cs := [Group([Logged(0, b, a)], {0, 1}, map[b as nat := x])];
            && AllInHome(|home|, cs) && ReplayLogged(home, cs)[b] == a && ReplayAll(home, cs)[b] == x
  {
    var ws := [Logged(0, b, a)];
    var cs := [Group(ws, {0, 1}, map[b as nat := x])];
    assert cs[..0] == [] && ws[..0] == [];
    assert InHome(|home|, ws);
    assert ReplayAll(home, []) == home && ReplayLogged(home, []) == home;
    assert Replay(home, []) == home && Replay(home, ws) == home[b := a];
  }
}
