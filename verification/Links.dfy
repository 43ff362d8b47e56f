/** Link counts: `link`, `unlink`, `create` and `iput` step by step, by any number of processes. */
module Links {
  import opened Basics

  datatype Kind = Free | File | Dir

  const ROOTINO: nat := 1
  const DOT: string := "."
  const DOTDOT: string := ".."

  /** An inode: its link count, for a directory its entries, the references to it in memory, and the
      operations under way: `pend` calls of `link` that have counted a link they have yet to enter, and
      `dying` when `unlink` has removed an entry it has yet to discount. */
  datatype Node = Node(kind: Kind, nlink: int, dir: map<string, nat>, ref: nat, pend: nat, dying: bool)

  type Fs = seq<Node>

  const NOTHING: Node := Node(Free, 0, map[], 0, 0, false)

  /** A directory that is still linked. */
  predicate Linked(n: Node) {
    n.kind == Dir && n.nlink > 0 && !n.dying
  }

  /** Entry `name` of directory `d`, still linked and not ".", names inode `i`. */
  predicate Names(s: Fs, d: nat, name: string, i: nat) {
    d < |s| && Linked(s[d]) && name in s[d].dir && name != DOT && s[d].dir[name] == i
  }

  /** The entries that name inode `i`. */
  function Refs(s: Fs, i: nat): set<(nat, string)> {
    set d: nat, name: string | d < |s| && name in s[d].dir && Names(s, d, name, i) :: (d, name)
  }

  // ----- steps -----

  /** `sys_link`, first half: the file is counted one link more. */
  predicate LinkStart(s: Fs, i: nat, s': Fs) {
    && i < |s| && s[i].kind == File && s[i].ref > Due(s[i]) && !s[i].dying
    && s' == s[i := s[i].(nlink := s[i].nlink + 1, pend := s[i].pend + 1)]
  }

  /** `sys_link`, second half: the entry goes into directory `d`. */
  predicate LinkFinish(s: Fs, i: nat, d: nat, name: string, s': Fs) {
    && i < |s| && s[i].pend > 0 && d < |s| && s[d].kind == Dir && s[d].ref > 0 && !s[d].dying && name !in s[d].dir
    && i != d
    && s' == s[i := s[i].(pend := s[i].pend - 1)][d := s[d].(dir := s[d].dir[name := i])]
  }

  /** `sys_link` when the second half fails: the link is discounted again. */
  predicate LinkAbort(s: Fs, i: nat, s': Fs) {
    && i < |s| && s[i].pend > 0 && !s[i].dying
    && s' == s[i := s[i].(nlink := s[i].nlink - 1, pend := s[i].pend - 1)]
  }

  predicate IsDirEmpty(n: Node) {
    forall name | name in n.dir :: name == DOT || name == DOTDOT
  }

  /** `sys_unlink` up to the release of the directory: the entry is gone. */
  predicate UnlinkEntry(s: Fs, d: nat, name: string, i: nat, s': Fs) {
    && d < |s| && s[d].kind == Dir && s[d].ref > 0 && !s[d].dying && name in s[d].dir && name != DOT && name != DOTDOT
    && s[d].dir[name] == i && i < |s| && i != d && !s[i].dying && s[i].nlink >= 1
    && (s[i].kind == Dir ==> IsDirEmpty(s[i]))
    && s' == s[i := s[i].(dying := true, ref := s[i].ref + 1)]
              [d := s[d].(dir := s[d].dir - {name}, nlink := if s[i].kind == Dir then s[d].nlink - 1 else s[d].nlink)]
  }

  /** The rest of `sys_unlink`: the link is discounted. */
  predicate UnlinkDrop(s: Fs, i: nat, s': Fs) {
    && i < |s| && s[i].dying
    && s' == s[i := s[i].(nlink := s[i].nlink - 1, dying := false)]
  }

  /** `create` of a file or directory that does not exist yet, in a free inode. */
  predicate Create(s: Fs, d: nat, name: string, kind: Kind, i: nat, s': Fs) {
    && d < |s| && s[d].kind == Dir && s[d].ref > 0 && !s[d].dying && name !in s[d].dir
    && i < |s| && s[i].kind == Free && kind != Free
    && s' == s[i := Node(kind, 1, if kind == Dir then map[DOT := i, DOTDOT := d] else map[], 1, 0, false)]
              [d := s[d].(dir := s[d].dir[name := i], nlink := if kind == Dir then s[d].nlink + 1 else s[d].nlink)]
  }

  /** `iget` or `idup`. */
  predicate Get(s: Fs, i: nat, s': Fs) {
    i < |s| && s[i].kind != Free && s' == s[i := s[i].(ref := s[i].ref + 1)]
  }

  /** `iput` of a reference that no operation under way has: the last one to an inode without links frees it. */
  predicate Put(s: Fs, i: nat, s': Fs) {
    && i < |s| && s[i].ref > Due(s[i])
    && s' == s[i := if s[i].ref == 1 && s[i].nlink == 0 then NOTHING else s[i].(ref := s[i].ref - 1)]
  }

  // ----- what holds between steps -----

  function Due(n: Node): nat {
    n.pend + if n.dying then 1 else 0
  }

  /** The link count is the number of entries, plus what operations under way owe. */
  predicate CountOk(s: Fs, i: nat)
    requires i < |s|
  {
    s[i].nlink == |Refs(s, i)| + Due(s[i])
  }

  predicate NodeOk(s: Fs, i: nat)
    requires i < |s|
  {
    var n := s[i];
    && (n.kind == Free ==> n == NOTHING)
    && (n.kind != Dir ==> n.dir == map[])
    && (n.kind == Dir ==> n.pend == 0 && DOT in n.dir && n.dir[DOT] == i && DOTDOT in n.dir)
    && (n.kind == Dir && n.dying ==> n.nlink == 1)
    && (DOTDOT in n.dir ==> n.dir[DOTDOT] < |s| && (n.dir[DOTDOT] == i <==> i == ROOTINO))
    && (n.kind == Dir && !Linked(n) ==> IsDirEmpty(n))
  }

  /** A still-linked directory other than the root has its one entry in the directory that its ".."
      names. */
  ghost predicate DirOk(s: Fs, e: nat)
    requires e < |s|
  {
    Linked(s[e]) && e != ROOTINO && DOTDOT in s[e].dir ==> exists name :: InParent(s, e, name)
  }

  predicate InParent(s: Fs, e: nat, name: string)
    requires e < |s| && DOTDOT in s[e].dir
  {
    name != DOTDOT && Names(s, s[e].dir[DOTDOT], name, e)
  }

  /** Only its parent names a directory, and only once; and nothing but ".." names the root. */
  ghost predicate EntryOk(s: Fs, d: nat, name: string, e: nat) {
    Names(s, d, name, e) && name != DOTDOT && e < |s| && s[e].kind == Dir ==>
      && e != ROOTINO && DOTDOT in s[e].dir && s[e].dir[DOTDOT] == d
      && forall other :: Names(s, d, other, e) && other != DOTDOT ==> other == name
  }

  /** All link counts are right. */
  predicate Counts(s: Fs) {
    forall i: nat | i < |s| :: CountOk(s, i)
  }

  ghost predicate Inv(s: Fs) {
    && ROOTINO < |s| && Linked(s[ROOTINO])
    && (forall i: nat | i < |s| :: NodeOk(s, i))
    && Counts(s)
    && (forall e: nat | e < |s| :: DirOk(s, e))
    && forall d: nat, name: string, e: nat :: EntryOk(s, d, name, e)
  }

  // ----- steps that touch no entry -----

  /** Same entries in the same linked directories. */
  predicate SameEntries(s: Fs, s': Fs) {
    |s'| == |s| && forall d: nat | d < |s| :: Linked(s'[d]) == Linked(s[d]) && (Linked(s[d]) ==> s'[d].dir == s[d].dir)
  }

  lemma SameRefs(s: Fs, s': Fs, i: nat)
    requires SameEntries(s, s')
    ensures Refs(s', i) == Refs(s, i)
  {
    assert forall d: nat, name: string :: Names(s', d, name, i) == Names(s, d, name, i);
  }

  lemma SameTree(s: Fs, s': Fs)
    requires Inv(s) && SameEntries(s, s')
    requires forall e: nat | e < |s| :: s'[e].kind == Dir ==> s[e].kind == Dir && s'[e].dir == s[e].dir
    ensures forall e: nat | e < |s'| :: DirOk(s', e)
    ensures forall d: nat, name: string, e: nat :: EntryOk(s', d, name, e)
  {
    assert forall d: nat, name: string, i: nat :: Names(s', d, name, i) == Names(s, d, name, i);
    forall e: nat | e < |s'|
      ensures DirOk(s', e)
    {
      assert DirOk(s, e);
      if Linked(s[e]) && e != ROOTINO && DOTDOT in s[e].dir {
        var name :| InParent(s, e, name);
        assert InParent(s', e, name);
      }
    }
    forall d: nat, name: string, e: nat
      ensures EntryOk(s', d, name, e)
    {
      assert EntryOk(s, d, name, e);
    }
  }

  /** One node changes, and no entry. */
  lemma QuietKeeps(s: Fs, i: nat, n: Node, s': Fs)
    requires Inv(s) && i < |s| && s' == s[i := n] && Linked(n) == Linked(s[i])
    requires (n.kind == Dir ==> s[i].kind == Dir && n.dir == s[i].dir)
    requires NodeOk(s', i) && n.nlink - Due(n) == s[i].nlink - Due(s[i])
    ensures Inv(s')
  {
    SameTree(s, s');
    forall j: nat | j < |s'|
      ensures NodeOk(s', j) && CountOk(s', j)
    {
      SameRefs(s, s', j);
      assert NodeOk(s, j) && CountOk(s, j);
    }
  }

  lemma LinkStartKeeps(s: Fs, i: nat, s': Fs)
    requires Inv(s) && LinkStart(s, i, s')
    ensures Inv(s')
  {
    assert NodeOk(s, i);
    QuietKeeps(s, i, s'[i], s');
  }

  lemma LinkAbortKeeps(s: Fs, i: nat, s': Fs)
    requires Inv(s) && LinkAbort(s, i, s')
    ensures Inv(s')
  {
    assert NodeOk(s, i);
    QuietKeeps(s, i, s'[i], s');
  }

  lemma UnlinkDropKeeps(s: Fs, i: nat, s': Fs)
    requires Inv(s) && UnlinkDrop(s, i, s')
    ensures Inv(s')
  {
    assert NodeOk(s, i);
    QuietKeeps(s, i, s'[i], s');
  }

  lemma GetKeeps(s: Fs, i: nat, s': Fs)
    requires Inv(s) && Get(s, i, s')
    ensures Inv(s')
  {
    assert NodeOk(s, i);
    QuietKeeps(s, i, s'[i], s');
  }

  /** Freeing happens exactly to an inode that no entry names, with no operation under way on it, and at
      its last reference. */
  lemma PutKeeps(s: Fs, i: nat, s': Fs)
    requires Inv(s) && Put(s, i, s')
    ensures Inv(s')
    ensures s'[i].kind == Free <==> Refs(s, i) == {} && Due(s[i]) == 0 && s[i].ref == 1
  {
    assert NodeOk(s, i) && CountOk(s, i);
    QuietKeeps(s, i, s'[i], s');
  }

  // ----- entering a link -----

  lemma LinkRefs(s: Fs, i: nat, d: nat, name: string, s': Fs, j: nat)
    requires LinkFinish(s, i, d, name, s') && name != DOT && s[i].kind != Dir
    ensures Refs(s', j) == if j == i && Linked(s[d]) then Refs(s, j) + {(d, name)} else Refs(s, j)
    ensures (d, name) !in Refs(s, j)
  {
    assert forall e: nat, x: string ::
        Names(s', e, x, j) == (Names(s, e, x, j) || (e == d && x == name && j == i && Linked(s[d])));
  }

  lemma LinkCounts(s: Fs, i: nat, d: nat, name: string, s': Fs)
    requires Inv(s) && LinkFinish(s, i, d, name, s') && Linked(s[d])
    ensures forall j: nat | j < |s'| :: NodeOk(s', j) && CountOk(s', j)
  {
    assert NodeOk(s, i) && NodeOk(s, d);
    forall j: nat | j < |s'|
      ensures NodeOk(s', j) && CountOk(s', j)
    {
      assert NodeOk(s, j) && CountOk(s, j);
      LinkRefs(s, i, d, name, s', j);
    }
  }

  lemma LinkTree(s: Fs, i: nat, d: nat, name: string, s': Fs)
    requires Inv(s) && LinkFinish(s, i, d, name, s') && Linked(s[d])
    ensures forall e: nat | e < |s'| :: DirOk(s', e)
    ensures forall c: nat, x: string, e: nat :: EntryOk(s', c, x, e)
  {
    hide CountOk;
    assert NodeOk(s, i) && NodeOk(s, d);
    assert forall c: nat, x: string, e: nat | e != i :: Names(s', c, x, e) == Names(s, c, x, e);
    forall e: nat | e < |s'|
      ensures DirOk(s', e)
    {
      assert DirOk(s, e);
      if Linked(s'[e]) && e != ROOTINO && DOTDOT in s'[e].dir {
        var x :| InParent(s, e, x);
        assert InParent(s', e, x);
      }
    }
    forall c: nat, x: string, e: nat
      ensures EntryOk(s', c, x, e)
    {
      assert EntryOk(s, c, x, e);
    }
  }

  /** Entering a link keeps the counts right exactly when the directory has not been removed in the
      meantime, which `sys_link` does not check. */
  lemma LinkExact(s: Fs, i: nat, d: nat, name: string, s': Fs)
    requires Inv(s) && LinkFinish(s, i, d, name, s')
    ensures Counts(s') <==> s[d].nlink > 0
    ensures s[d].nlink > 0 ==> Inv(s')
  {
    assert NodeOk(s, i) && NodeOk(s, d);
    if s[d].nlink > 0 {
      LinkCounts(s, i, d, name, s');
      LinkTree(s, i, d, name, s');
    } else {
      assert CountOk(s, i);
      LinkRefs(s, i, d, name, s', i);
      assert !CountOk(s', i);
    }
  }

  // ----- creating -----

  lemma FreeHasNoRefs(s: Fs, i: nat)
    requires Inv(s) && i < |s| && s[i].kind == Free
    ensures s[i] == NOTHING && Refs(s, i) == {} && forall d: nat, x: string :: !Names(s, d, x, i)
  {
    assert NodeOk(s, i) && CountOk(s, i);
    assert forall d: nat, x: string :: Names(s, d, x, i) ==> (d, x) in Refs(s, i);
  }

  /** Which entries there are after creating inode `i` in a linked directory. */
  predicate CreatedName(s: Fs, d: nat, name: string, i: nat, kind: Kind, e: nat, x: string, j: nat) {
    Names(s, e, x, j) || (e == d && x == name && j == i) || (kind == Dir && e == i && x == DOTDOT && j == d)
  }

  lemma CreateNames(s: Fs, d: nat, name: string, kind: Kind, i: nat, s': Fs)
    requires Inv(s) && Create(s, d, name, kind, i, s') && Linked(s[d])
    ensures forall e: nat, x: string, j: nat :: Names(s', e, x, j) == CreatedName(s, d, name, i, kind, e, x, j)
  {
    FreeHasNoRefs(s, i);
    assert NodeOk(s, d);
  }

  lemma CreateRefs(s: Fs, d: nat, name: string, kind: Kind, i: nat, s': Fs, j: nat)
    requires Inv(s) && Create(s, d, name, kind, i, s') && Linked(s[d])
    ensures Refs(s', j) ==
              if j == i then {(d, name)}
              else if j == d && kind == Dir then Refs(s, j) + {(i, DOTDOT)}
              else Refs(s, j)
    ensures (i, DOTDOT) !in Refs(s, j)
  {
    hide Inv;
    CreateNames(s, d, name, kind, i, s');
    FreeHasNoRefs(s, i);
    assert i != d;
    assert |s'| == |s|;
    forall e: nat, x: string
      ensures (e, x) in Refs(s', j) <==> CreatedName(s, d, name, i, kind, e, x, j)
    {
      assert Names(s', e, x, j) == CreatedName(s, d, name, i, kind, e, x, j);
      assert Names(s', e, x, j) ==> e < |s'| && x in s'[e].dir;
    }
  }

  lemma CreateCount(s: Fs, d: nat, name: string, kind: Kind, i: nat, s': Fs, j: nat)
    requires Inv(s) && Create(s, d, name, kind, i, s') && Linked(s[d]) && j < |s'|
    ensures CountOk(s', j)
  {
    FreeHasNoRefs(s, i);
    assert CountOk(s, j) && NodeOk(s, d);
    CreateRefs(s, d, name, kind, i, s', j);
    hide Inv, Refs, Names, NodeOk, IsDirEmpty, Linked;
    var more := if kind == Dir then s[d].nlink + 1 else s[d].nlink;
    assert s'[d].nlink == more && Due(s'[d]) == Due(s[d]);
    assert s'[i].nlink == 1 && Due(s'[i]) == 0;
    assert j != i && j != d ==> s'[j] == s[j];
  }

  lemma CreateNode(s: Fs, d: nat, name: string, kind: Kind, i: nat, s': Fs, j: nat)
    requires Inv(s) && Create(s, d, name, kind, i, s') && Linked(s[d]) && j < |s'|
    ensures NodeOk(s', j)
  {
    assert NodeOk(s, j) && NodeOk(s, d) && NodeOk(s, ROOTINO);
    assert i != ROOTINO;
    hide Inv;
    assert j != i && j != d ==> s'[j] == s[j];
    if j == d {
      assert s'[j].dir == s[j].dir[name := i] && Linked(s'[j]);
    }
  }

  lemma CreateTree(s: Fs, d: nat, name: string, kind: Kind, i: nat, s': Fs)
    requires Inv(s) && Create(s, d, name, kind, i, s') && Linked(s[d])
    ensures forall e: nat | e < |s'| :: DirOk(s', e)
    ensures forall c: nat, x: string, e: nat :: EntryOk(s', c, x, e)
  {
    hide CountOk;
    assert NodeOk(s, d);
    FreeHasNoRefs(s, i);
    CreateNames(s, d, name, kind, i, s');
    forall e: nat | e < |s'|
      ensures DirOk(s', e)
    {
      assert DirOk(s, e);
      if e == i {
        assert CreatedName(s, d, name, i, kind, d, name, i);
        assert kind == Dir ==> InParent(s', e, name);
      } else if Linked(s'[e]) && e != ROOTINO && DOTDOT in s'[e].dir {
        var x :| InParent(s, e, x);
        assert CreatedName(s, d, name, i, kind, s[e].dir[DOTDOT], x, e);
        assert InParent(s', e, x);
      }
    }
    forall c: nat, x: string, e: nat
      ensures EntryOk(s', c, x, e)
    {
      assert EntryOk(s, c, x, e);
    }
  }

  /** Creating keeps the counts right exactly when the directory has not been removed in the meantime,
      which `create` does not check. */
  lemma CreateExact(s: Fs, d: nat, name: string, kind: Kind, i: nat, s': Fs)
    requires Inv(s) && Create(s, d, name, kind, i, s')
    ensures Counts(s') <==> s[d].nlink > 0
    ensures s[d].nlink > 0 ==> Inv(s')
  {
    assert NodeOk(s, d);
    FreeHasNoRefs(s, i);
    if s[d].nlink > 0 {
      forall j: nat | j < |s'|
        ensures NodeOk(s', j) && CountOk(s', j)
      {
        CreateNode(s, d, name, kind, i, s', j);
        CreateCount(s, d, name, kind, i, s', j);
      }
      CreateTree(s, d, name, kind, i, s');
      assert Linked(s'[ROOTINO]);
    } else {
      CreateInRemoved(s, d, name, kind, i, s');
    }
  }

  /** In a removed directory, a new file is counted but not named by any linked directory; a new
      directory makes the removed one count again, and with it its "..", which nobody has counted. */
  lemma CreateInRemoved(s: Fs, d: nat, name: string, kind: Kind, i: nat, s': Fs)
    requires Inv(s) && Create(s, d, name, kind, i, s') && s[d].nlink <= 0
    ensures !Counts(s')
  {
    FreeHasNoRefs(s, i);
    assert NodeOk(s, d) && CountOk(s, d);
    if kind == File {
      assert forall e: nat, x: string :: Names(s', e, x, i) ==> Names(s, e, x, i);
      assert Refs(s', i) == {};
      assert !CountOk(s', i);
    } else {
      UncountedParent(s, d, name, i, s');
    }
  }

  lemma UncountedParent(s: Fs, d: nat, name: string, i: nat, s': Fs)
    requires Inv(s) && Create(s, d, name, Dir, i, s') && s[d].nlink <= 0
    ensures DOTDOT in s[d].dir && s[d].dir[DOTDOT] < |s'| && !CountOk(s', s[d].dir[DOTDOT])
  {
    FreeHasNoRefs(s, i);
    assert NodeOk(s, d) && CountOk(s, d) && NodeOk(s, i);
    assert d != ROOTINO;
    var p := s[d].dir[DOTDOT];
    assert p != d && CountOk(s, p);
    assert name != DOTDOT && name != DOT;
    assert Linked(s'[d]) && s'[d].dir == s[d].dir[name := i];
    hide Inv, NodeOk;
    if p == i {
      assert {(d, name), (d, DOTDOT)} <= Refs(s', i);
      SubsetSize({(d, name), (d, DOTDOT)}, Refs(s', i));
    } else {
      assert (d, DOTDOT) !in Refs(s, p);
      forall e: nat, x: string | Names(s, e, x, p)
        ensures Names(s', e, x, p)
      {
      }
      assert Refs(s, p) + {(d, DOTDOT)} <= Refs(s', p);
      SubsetSize(Refs(s, p) + {(d, DOTDOT)}, Refs(s', p));
    }
  }

  // ----- removing -----

  /** An entry that `unlink` finds names an inode that is counted: the "nlink < 1" panic does not happen. */
  lemma FoundIsLinked(s: Fs, d: nat, name: string)
    requires Inv(s) && d < |s| && s[d].kind == Dir && !s[d].dying && name in s[d].dir && name != DOT && name != DOTDOT
    ensures Linked(s[d]) && (s[d].dir[name] < |s| ==> s[s[d].dir[name]].nlink >= 1)
  {
    assert NodeOk(s, d);
    var i := s[d].dir[name];
    if i < |s| {
      assert CountOk(s, i);
      assert (d, name) in Refs(s, i);
    }
  }

  /** The one entry that names an empty directory. */
  lemma EmptyRefs(s: Fs, d: nat, name: string, i: nat)
    requires Inv(s) && Names(s, d, name, i) && name != DOTDOT && i < |s| && s[i].kind == Dir && IsDirEmpty(s[i])
    ensures Refs(s, i) == {(d, name)} && i != ROOTINO && DOTDOT in s[i].dir && s[i].dir[DOTDOT] == d
  {
    hide CountOk;
    assert EntryOk(s, d, name, i);
    forall c: nat, x: string | Names(s, c, x, i)
      ensures c == d && x == name
    {
      assert EntryOk(s, c, x, i);
      assert NodeOk(s, c) && DirOk(s, c);
    }
    assert (d, name) in Refs(s, i);
  }

  /** An empty directory has link count 1, so that `unlink` leaves it none. */
  lemma EmptyHasOneLink(s: Fs, d: nat, name: string, i: nat)
    requires Inv(s) && Names(s, d, name, i) && name != DOTDOT && i < |s| && s[i].kind == Dir && IsDirEmpty(s[i])
    requires !s[i].dying
    ensures s[i].nlink == 1
  {
    EmptyRefs(s, d, name, i);
    assert CountOk(s, i) && NodeOk(s, i);
  }

  /** Which entries are left after unlinking. */
  predicate LeftName(s: Fs, d: nat, name: string, i: nat, e: nat, x: string, j: nat)
    requires i < |s|
  {
    Names(s, e, x, j) && !(e == d && x == name) && !(s[i].kind == Dir && e == i)
  }

  /** A directory keeps a link when a directory in it goes. */
  lemma ParentStays(s: Fs, d: nat, name: string, i: nat, s': Fs)
    requires Inv(s) && UnlinkEntry(s, d, name, i, s')
    ensures Linked(s[d]) && Linked(s'[d])
    ensures s[i].kind == Dir ==> (i, DOTDOT) in Refs(s, d) && i != ROOTINO && s[i].nlink == 1
  {
    FoundIsLinked(s, d, name);
    if s[i].kind == Dir {
      EmptyRefs(s, d, name, i);
      EmptyHasOneLink(s, d, name, i);
      assert (i, DOTDOT) in Refs(s, d);
      assert NodeOk(s, d) && CountOk(s, d) && DirOk(s, d);
      var c, x := d, DOTDOT;
      if d != ROOTINO {
        x :| InParent(s, d, x);
        c := s[d].dir[DOTDOT];
      }
      assert (c, x) in Refs(s, d);
      assert {(i, DOTDOT), (c, x)} <= Refs(s, d);
      SubsetSize({(i, DOTDOT), (c, x)}, Refs(s, d));
    }
  }

  lemma UnlinkNames(s: Fs, d: nat, name: string, i: nat, s': Fs)
    requires Inv(s) && UnlinkEntry(s, d, name, i, s')
    ensures forall e: nat, x: string, j: nat :: Names(s', e, x, j) == LeftName(s, d, name, i, e, x, j)
  {
    ParentStays(s, d, name, i, s');
    hide Inv, Refs, IsDirEmpty;
    forall e: nat, x: string, j: nat
      ensures Names(s', e, x, j) == LeftName(s, d, name, i, e, x, j)
    {
      assert e == d ==> s'[e].dir == s[e].dir - {name};
      assert e < |s| && e != d && e != i ==> s'[e] == s[e];
      assert e == i && e != d ==> s'[e].dir == s[e].dir && s'[e].dying;
    }
  }

  lemma UnlinkRefs(s: Fs, d: nat, name: string, i: nat, s': Fs, j: nat)
    requires Inv(s) && UnlinkEntry(s, d, name, i, s')
    ensures Refs(s', j) ==
              if j == i then Refs(s, j) - {(d, name)}
              else if s[i].kind == Dir && j == d then Refs(s, j) - {(i, DOTDOT)}
              else Refs(s, j)
  {
    UnlinkNames(s, d, name, i, s');
    assert NodeOk(s, i);
    if s[i].kind == Dir {
      FoundIsLinked(s, d, name);
      EmptyRefs(s, d, name, i);
    }
    hide Inv;
    forall e: nat, x: string
      ensures (e, x) in Refs(s', j) <==> LeftName(s, d, name, i, e, x, j)
    {
      assert Names(s', e, x, j) == LeftName(s, d, name, i, e, x, j);
    }
    forall e: nat, x: string
      ensures (e, x) in Refs(s, j) <==> Names(s, e, x, j)
    {
    }
    assert forall x: string :: s[i].kind == Dir && Names(s, i, x, j) ==> x == DOTDOT && j == d;
  }

  lemma UnlinkCounts(s: Fs, d: nat, name: string, i: nat, s': Fs)
    requires Inv(s) && UnlinkEntry(s, d, name, i, s')
    ensures forall j: nat | j < |s'| :: NodeOk(s', j) && CountOk(s', j)
  {
    ParentStays(s, d, name, i, s');
    assert (d, name) in Refs(s, i);
    forall j: nat | j < |s'|
      ensures NodeOk(s', j) && CountOk(s', j)
    {
      assert NodeOk(s, j) && CountOk(s, j);
      UnlinkRefs(s, d, name, i, s', j);
    }
  }

  lemma UnlinkTree(s: Fs, d: nat, name: string, i: nat, s': Fs)
    requires Inv(s) && UnlinkEntry(s, d, name, i, s')
    ensures forall e: nat | e < |s'| :: DirOk(s', e)
    ensures forall c: nat, x: string, e: nat :: EntryOk(s', c, x, e)
  {
    hide CountOk;
    UnlinkNames(s, d, name, i, s');
    forall e: nat | e < |s'|
      ensures DirOk(s', e)
    {
      assert DirOk(s, e) && NodeOk(s, e);
      if Linked(s'[e]) && e != ROOTINO && DOTDOT in s'[e].dir {
        var x :| InParent(s, e, x);
        assert LeftName(s, d, name, i, s[e].dir[DOTDOT], x, e);
        assert InParent(s', e, x);
      }
    }
    forall c: nat, x: string, e: nat
      ensures EntryOk(s', c, x, e)
    {
      assert EntryOk(s, c, x, e);
    }
  }

  lemma UnlinkEntryKeeps(s: Fs, d: nat, name: string, i: nat, s': Fs)
    requires Inv(s) && UnlinkEntry(s, d, name, i, s')
    ensures Inv(s')
  {
    UnlinkCounts(s, d, name, i, s');
    UnlinkTree(s, d, name, i, s');
    ParentStays(s, d, name, i, s');
  }

  // ----- runs -----

  datatype Step =
    | DoLinkStart(i: nat)
    | DoLinkFinish(i: nat, d: nat, name: string)
    | DoLinkAbort(i: nat)
    | DoUnlinkEntry(i: nat, d: nat, name: string)
    | DoUnlinkDrop(i: nat)
    | DoCreate(i: nat, d: nat, name: string, kind: Kind)
    | DoGet(i: nat)
    | DoPut(i: nat)

  predicate Next(s: Fs, a: Step, s': Fs) {
    match a
    case DoLinkStart(i) => LinkStart(s, i, s')
    case DoLinkFinish(i, d, name) => LinkFinish(s, i, d, name, s')
    case DoLinkAbort(i) => LinkAbort(s, i, s')
    case DoUnlinkEntry(i, d, name) => UnlinkEntry(s, d, name, i, s')
    case DoUnlinkDrop(i) => UnlinkDrop(s, i, s')
    case DoCreate(i, d, name, kind) => Create(s, d, name, kind, i, s')
    case DoGet(i) => Get(s, i, s')
    case DoPut(i) => Put(s, i, s')
  }

  /** The step does not enter a name in a removed directory. */
  predicate InLinked(s: Fs, a: Step) {
    (a.DoLinkFinish? || a.DoCreate?) ==> a.d < |s| && s[a.d].nlink > 0
  }

  lemma NextExact(s: Fs, a: Step, s': Fs)
    requires Inv(s) && Next(s, a, s')
    ensures Counts(s') <==> InLinked(s, a)
    ensures InLinked(s, a) ==> Inv(s')
  {
    match a
    case DoLinkStart(i) => LinkStartKeeps(s, i, s');
    case DoLinkFinish(i, d, name) => LinkExact(s, i, d, name, s');
    case DoLinkAbort(i) => LinkAbortKeeps(s, i, s');
    case DoUnlinkEntry(i, d, name) => UnlinkEntryKeeps(s, d, name, i, s');
    case DoUnlinkDrop(i) => UnlinkDropKeeps(s, i, s');
    case DoCreate(i, d, name, kind) => CreateExact(s, d, name, kind, i, s');
    case DoGet(i) => GetKeeps(s, i, s');
    case DoPut(i) => PutKeeps(s, i, s');
  }

  const ROOT: Node := Node(Dir, 1, map[DOT := ROOTINO, DOTDOT := ROOTINO], 1, 0, false)

  /** A new file system: the root directory, which is the first process's current one, and free inodes. */
  predicate Start(s: Fs) {
    ROOTINO < |s| && s[ROOTINO] == ROOT && forall i: nat | i < |s| && i != ROOTINO :: s[i] == NOTHING
  }

  lemma StartInv(s: Fs)
    requires Start(s)
    ensures Inv(s)
  {
    assert forall d: nat, x: string, i: nat :: Names(s, d, x, i) <==> d == ROOTINO && x == DOTDOT && i == ROOTINO;
    forall i: nat | i < |s|
      ensures CountOk(s, i)
    {
      assert Refs(s, i) == if i == ROOTINO then {(ROOTINO, DOTDOT)} else {};
    }
  }

  predicate IsRun(run: seq<Fs>, acts: seq<Step>) {
    |run| == |acts| + 1 && Start(run[0]) && forall k | 0 <= k < |acts| :: Next(run[k], acts[k], run[k + 1])
  }

  lemma {:induction false} RunInv(run: seq<Fs>, acts: seq<Step>, n: nat)
    requires IsRun(run, acts) && n < |run| && forall k | 0 <= k < n :: InLinked(run[k], acts[k])
    ensures Inv(run[n])
  {
    if n == 0 {
      StartInv(run[0]);
    } else {
      RunInv(run, acts, n - 1);
      NextExact(run[n - 1], acts[n - 1], run[n]);
    }
  }

  /** What holds of inode `i`: its link count is the number of entries naming it, plus what operations
      under way owe; no entry names a free inode; and a removed directory is empty. */
  ghost predicate Counted(s: Fs, i: nat)
    requires i < |s|
  {
    && CountOk(s, i)
    && (s[i].kind == Free ==> Refs(s, i) == {})
    && (s[i].kind == Dir && s[i].nlink == 0 ==> IsDirEmpty(s[i]))
  }

  /** Along every run that enters no name in a removed directory all this holds. The first step that does
      enter a name there makes a link count wrong. */
  lemma LinksSafe(run: seq<Fs>, acts: seq<Step>, n: nat)
    requires IsRun(run, acts) && n < |run| && forall k | 0 <= k < n :: InLinked(run[k], acts[k])
    ensures forall i: nat | i < |run[n]| :: Counted(run[n], i)
    ensures n < |acts| && !InLinked(run[n], acts[n]) ==> !Counts(run[n + 1])
  {
    RunInv(run, acts, n);
    forall i: nat | i < |run[n]|
      ensures Counted(run[n], i)
    {
      assert NodeOk(run[n], i) && CountOk(run[n], i);
    }
    if n < |acts| {
      NextExact(run[n], acts[n], run[n + 1]);
    }
  }

  /** An inode in use has a link or a reference, and every operation under way on it has a reference. */
  predicate HeldOk(n: Node) {
    n.ref >= Due(n) && (n.kind == Free || n.nlink != 0 || n.ref > 0)
  }

  predicate AllHeld(s: Fs) {
    forall i: nat | i < |s| :: HeldOk(s[i])
  }

  /** Whatever the processes do, no inode is in use that nothing names and nobody refers to. */
  lemma {:induction false} NoneLeaked(run: seq<Fs>, acts: seq<Step>, n: nat)
    requires IsRun(run, acts) && n < |run|
    ensures AllHeld(run[n])
  {
    if n > 0 {
      NoneLeaked(run, acts, n - 1);
      HeldStep(run[n - 1], acts[n - 1], run[n]);
    }
  }

  lemma HeldStep(s: Fs, a: Step, s': Fs)
    requires AllHeld(s) && Next(s, a, s')
    ensures AllHeld(s')
  {
    assert HeldOk(s[a.i]);
    hide Names, IsDirEmpty;
  }

  /** There is such a run: make a directory, remove it while it is in use, and create a file in it. */
  lemma WrongCount() returns (run: seq<Fs>, acts: seq<Step>)
    ensures IsRun(run, acts) && |acts| == 4 && !Counts(run[4])
  {
    var made := Node(Dir, 1, map[DOT := 2, DOTDOT := 1], 1, 0, false);
    var s0: Fs := [NOTHING, ROOT, NOTHING, NOTHING];
    var s1 := s0[2 := made][1 := ROOT.(dir := ROOT.dir["a" := 2], nlink := 2)];
    var s2 := s1[2 := made.(dying := true, ref := 2)][1 := ROOT.(dir := ROOT.dir["a" := 2] - {"a"})];
    var s3 := s2[2 := made.(nlink := 0, ref := 2)];
    var s4 := s3[3 := Node(File, 1, map[], 1, 0, false)][2 := made.(nlink := 0, ref := 2, dir := made.dir["x" := 3])];
    run := [s0, s1, s2, s3, s4];
    acts := [DoCreate(2, 1, "a", Dir), DoUnlinkEntry(2, 1, "a"), DoUnlinkDrop(2), DoCreate(3, 2, "x", File)];
    assert Start(s0);
    assert Create(s0, 1, "a", Dir, 2, s1);
    assert UnlinkEntry(s1, 1, "a", 2, s2);
    assert UnlinkDrop(s2, 2, s3);
    assert Create(s3, 2, "x", File, 3, s4);
    assert forall d: nat, x: string :: !Names(s4, d, x, 3);
    assert Refs(s4, 3) == {};
    assert !CountOk(s4, 3);
  }
}
