/** The memory of all processes: what `allocproc`, `fork`, `growproc`, `exec` and `freeproc` keep, for any
    number of processes and any sequence of calls.

    A process is its page table, size and trap frame; a `View` is the address space behind it. */
module Processes {
  import opened PageTable
  import opened TableCount
  import opened Vm
  import Image

  /** The memory fields of a process: page table, size, trap frame. */
  datatype Proc = Proc(root: nat, sz: nat, tf: nat)

  /** The address space behind a process's page table. */
  datatype View = View(id: nat, s: Space)

  type Procs = map<nat, Proc>
  type Views = map<nat, View>

  function TrapFrames(procs: Procs): set<nat> {
    set p | p in procs :: procs[p].tf
  }

  function Ids(views: Views): set<nat> {
    set p | p in views :: views[p].id
  }

  /** A live process: its page table is a well-formed tree that maps exactly the pages of its size, each
      to a page of its own, and its trap frame and the trampoline above them. */
  ghost predicate ProcOk(ram: seq<Page>, owner: map<nat, Owner>, tr: nat, p: Proc, v: View) {
    && SpaceOk(ram, owner, v.id, v.s) && ROOT in v.s.node && p.root == v.s.node[ROOT]
    && Region(owner, v.id, v.s, PgUp(p.sz)) && Trapped(v.s, p.tf, tr)
    && p.tf in owner && owner[p.tf].Kernel?
  }

  /** No two processes share an address space or a trap frame. */
  predicate Apart(procs: Procs, views: Views)
    requires procs.Keys == views.Keys
  {
    forall p, q | p in procs && q in procs && p != q :: views[p].id != views[q].id && procs[p].tf != procs[q].tf
  }

  ghost predicate AllOk(ram: seq<Page>, owner: map<nat, Owner>, tr: nat, procs: Procs, views: Views)
    requires procs.Keys == views.Keys
  {
    forall p | p in procs :: ProcOk(ram, owner, tr, procs[p], views[p])
  }

  /** A page in use is one of the trap frames `tfs`, belongs to one of the address spaces `ids`, or is
      `reserved` for the rest of the kernel. */
  predicate Claimed(o: Owner, tfs: set<nat>, ids: set<nat>, reserved: set<nat>, f: nat) {
    match o
    case Free => f !in reserved
    case Kernel => f in reserved + tfs
    case Table(id, _) => id in ids && f !in reserved
    case Data(id, _) => id in ids && f !in reserved
  }

  predicate Accounted(owner: map<nat, Owner>, tfs: set<nat>, ids: set<nat>, reserved: set<nat>) {
    tfs !! reserved && forall f: nat | f in owner :: Claimed(owner[f], tfs, ids, reserved, f)
  }

  /** Every process is as it should be, no two have anything in common, and every page is free,
      reserved, or some process's. */
  ghost predicate TableOk(ram: seq<Page>, owner: map<nat, Owner>, tr: nat, procs: Procs, views: Views,
                          reserved: set<nat>) {
    && procs.Keys == views.Keys && Apart(procs, views) && AllOk(ram, owner, tr, procs, views)
    && Accounted(owner, TrapFrames(procs), Ids(views), reserved)
  }

  /** The process's user memory holds what it held. */
  predicate SameMemory(ram: seq<Page>, ram': seq<Page>, v: View, np: nat) {
    forall n: nat | n < np :: SamePage(ram, ram', v.s, n)
  }

  predicate SamePage(ram: seq<Page>, ram': seq<Page>, s: Space, n: nat) {
    && n in s.flat && FrameOf(s.flat[n]) < |ram| && |ram| == |ram'|
    && ram'[FrameOf(s.flat[n])] == ram[FrameOf(s.flat[n])]
  }

  /** The process's user memory and its trap frame hold what they held. */
  predicate Bystander(ram: seq<Page>, ram': seq<Page>, p: Proc, v: View) {
    && SameMemory(ram, ram', v, PgUp(p.sz))
    && p.tf < |ram| && |ram| == |ram'| && ram'[p.tf] == ram[p.tf]
  }

  // ----- one process under a change of others -----

  lemma OtherOk(ram: seq<Page>, owner: map<nat, Owner>, ram': seq<Page>, owner': map<nat, Owner>, tr: nat,
                ids: set<nat>, ks: set<nat>, p: Proc, v: View)
    requires ProcOk(ram, owner, tr, p, v) && OthersKept(ram, owner, ram', owner', ids, ks)
    requires v.id !in ids && p.tf !in ks
    ensures ProcOk(ram', owner', tr, p, v) && Bystander(ram, ram', p, v)
  {
    hide SpaceOk, Trapped, Pte;
    KeptSpace(ram, owner, ram', owner', ids, ks, v.id, v.s);
    KeptRegion(ram, owner, ram', owner', ids, ks, v.id, v.s, PgUp(p.sz));
    InMemory(ram, owner, v.id, v.s);
    assert KeptAt(ram, owner, ram', owner', ids, ks, p.tf);
    forall n: nat | n < PgUp(p.sz)
      ensures SamePage(ram, ram', v.s, n)
    {
      assert PageBacked(owner, v.id, v.s, n);
      assert KeptAt(ram, owner, ram', owner', ids, ks, FrameOf(v.s.flat[n]));
    }
  }

  lemma InMemory(ram: seq<Page>, owner: map<nat, Owner>, id: nat, s: Space)
    requires SpaceOk(ram, owner, id, s)
    ensures forall f | f in owner :: f < |ram|
  {
  }

  /** Everyone not `gone`, under a change of other address spaces and trap frames. */
  lemma OthersOk(ram: seq<Page>, owner: map<nat, Owner>, ram': seq<Page>, owner': map<nat, Owner>, tr: nat,
                 procs: Procs, views: Views, ids: set<nat>, ks: set<nat>, gone: set<nat>)
    requires procs.Keys == views.Keys && AllOk(ram, owner, tr, procs, views)
    requires OthersKept(ram, owner, ram', owner', ids, ks)
    requires forall q | q in procs && q !in gone :: views[q].id !in ids && procs[q].tf !in ks
    ensures forall q | q in procs && q !in gone ::
              ProcOk(ram', owner', tr, procs[q], views[q]) && Bystander(ram, ram', procs[q], views[q])
  {
    hide ProcOk, OthersKept, Bystander;
    forall q | q in procs && q !in gone
      ensures ProcOk(ram', owner', tr, procs[q], views[q]) && Bystander(ram, ram', procs[q], views[q])
    {
      OtherOk(ram, owner, ram', owner', tr, ids, ks, procs[q], views[q]);
    }
  }

  // ----- the table -----

  /** Pages of no process changed. */
  lemma TableSame(ram: seq<Page>, owner: map<nat, Owner>, ram': seq<Page>, tr: nat,
                  procs: Procs, views: Views, reserved: set<nat>, id: nat)
    requires TableOk(ram, owner, tr, procs, views, reserved) && OthersKept(ram, owner, ram', owner, {id}, {})
    requires id !in Ids(views)
    ensures TableOk(ram', owner, tr, procs, views, reserved)
    ensures forall q | q in procs :: Bystander(ram, ram', procs[q], views[q])
  {
    hide ProcOk, OthersKept, Bystander, Accounted;
    OthersOk(ram, owner, ram', owner, tr, procs, views, {id}, {}, {});
  }

  /** A process joins. */
  lemma TableGains(ram: seq<Page>, owner: map<nat, Owner>, ram': seq<Page>, owner': map<nat, Owner>, tr: nat,
                   procs: Procs, views: Views, reserved: set<nat>, c: nat, p: Proc, v: View)
    requires TableOk(ram, owner, tr, procs, views, reserved) && c !in procs && v.id !in Ids(views)
    requires OthersKept(ram, owner, ram', owner', {v.id}, {p.tf}) && p.tf in owner && owner[p.tf].Free?
    requires ProcOk(ram', owner', tr, p, v)
    ensures TableOk(ram', owner', tr, procs[c := p], views[c := v], reserved)
    ensures forall q | q in procs :: Bystander(ram, ram', procs[q], views[q])
  {
    hide ProcOk, OthersKept, Bystander, Accounted, Apart, Ids, TrapFrames;
    IdsHold(procs, views);
    forall q | q in procs
      ensures procs[q].tf in owner && owner[procs[q].tf].Kernel?
    {
      Frames(ram, owner, tr, procs[q], views[q]);
    }
    OthersOk(ram, owner, ram', owner', tr, procs, views, {v.id}, {p.tf}, {});
    JoinedSets(procs, views, c, p, v);
    JoinedApart(procs, views, c, p, v);
    assert AllOk(ram', owner', tr, procs[c := p], views[c := v]);
    GainsClaim(ram, owner, ram', owner', TrapFrames(procs), Ids(views), reserved, v.id, p.tf);
  }

  lemma Frames(ram: seq<Page>, owner: map<nat, Owner>, tr: nat, p: Proc, v: View)
    requires ProcOk(ram, owner, tr, p, v)
    ensures p.tf in owner && owner[p.tf].Kernel?
  {
  }

  lemma GainsClaim(ram: seq<Page>, owner: map<nat, Owner>, ram': seq<Page>, owner': map<nat, Owner>,
                   tfs: set<nat>, ids: set<nat>, reserved: set<nat>, id: nat, k: nat)
    requires Accounted(owner, tfs, ids, reserved) && OthersKept(ram, owner, ram', owner', {id}, {k})
    requires k in owner && owner[k].Free?
    ensures Accounted(owner', tfs + {k}, ids + {id}, reserved)
  {
    assert Claimed(owner[k], tfs, ids, reserved, k);
    forall f: nat | f in owner'
      ensures Claimed(owner'[f], tfs + {k}, ids + {id}, reserved, f)
    {
      assert KeptAt(ram, owner, ram', owner', {id}, {k}, f) && Claimed(owner[f], tfs, ids, reserved, f);
    }
  }

  lemma IdsHold(procs: Procs, views: Views)
    ensures forall q | q in procs :: procs[q].tf in TrapFrames(procs)
    ensures forall q | q in views :: views[q].id in Ids(views)
  {
  }

  lemma JoinedApart(procs: Procs, views: Views, c: nat, p: Proc, v: View)
    requires procs.Keys == views.Keys && Apart(procs, views) && c !in procs && v.id !in Ids(views)
    requires forall q | q in procs :: procs[q].tf != p.tf
    ensures Apart(procs[c := p], views[c := v])
  {
  }

  lemma JoinedSets(procs: Procs, views: Views, c: nat, p: Proc, v: View)
    requires c !in procs && c !in views
    ensures TrapFrames(procs[c := p]) == TrapFrames(procs) + {p.tf} && Ids(views[c := v]) == Ids(views) + {v.id}
  {
    assert forall q | q in procs :: procs[c := p][q].tf == procs[q].tf;
    assert forall q | q in views :: views[c := v][q].id == views[q].id;
    assert procs[c := p][c] == p && views[c := v][c] == v;
  }

  /** Process `p` has changed its memory, perhaps for another address space. */
  lemma TableChanges(ram: seq<Page>, owner: map<nat, Owner>, ram': seq<Page>, owner': map<nat, Owner>, tr: nat,
                     procs: Procs, views: Views, reserved: set<nat>, p: nat, p': Proc, v': View)
    requires TableOk(ram, owner, tr, procs, views, reserved) && p in procs && p'.tf == procs[p].tf
    requires OthersKept(ram, owner, ram', owner', {views[p].id, v'.id}, {})
    requires v'.id == views[p].id || (v'.id !in Ids(views) && Unheard(owner', views[p].id))
    requires ProcOk(ram', owner', tr, p', v')
    ensures TableOk(ram', owner', tr, procs[p := p'], views[p := v'], reserved)
    ensures forall q | q in procs && q != p :: Bystander(ram, ram', procs[q], views[q])
  {
    hide ProcOk, OthersKept, Bystander, Accounted, Unheard;
    OthersOk(ram, owner, ram', owner', tr, procs, views, {views[p].id, v'.id}, {}, {p});
    ChangedSets(procs, views, p, p', v');
    ChangesClaim(ram, owner, ram', owner', TrapFrames(procs), Ids(views), reserved, views[p].id, v'.id);
  }

  lemma ChangesClaim(ram: seq<Page>, owner: map<nat, Owner>, ram': seq<Page>, owner': map<nat, Owner>,
                     tfs: set<nat>, ids: set<nat>, reserved: set<nat>, id: nat, id': nat)
    requires Accounted(owner, tfs, ids, reserved) && OthersKept(ram, owner, ram', owner', {id, id'}, {})
    requires id' == id || Unheard(owner', id)
    ensures Accounted(owner', tfs, ids - {id} + {id'}, reserved)
  {
    forall f: nat | f in owner'
      ensures Claimed(owner'[f], tfs, ids - {id} + {id'}, reserved, f)
    {
      assert KeptAt(ram, owner, ram', owner', {id, id'}, {}, f) && Claimed(owner[f], tfs, ids, reserved, f);
    }
  }

  lemma ChangedSets(procs: Procs, views: Views, p: nat, p': Proc, v': View)
    requires procs.Keys == views.Keys && p in procs && p'.tf == procs[p].tf && Apart(procs, views)
    ensures TrapFrames(procs[p := p']) == TrapFrames(procs)
    ensures Ids(views[p := v']) == Ids(views) - {views[p].id} + {v'.id}
  {
    assert forall q | q in procs :: procs[p := p'][q].tf == procs[q].tf;
    assert forall q | q in views && q != p :: views[p := v'][q].id == views[q].id;
    assert views[p := v'][p] == v';
  }

  /** A process is gone. */
  lemma TableLoses(ram: seq<Page>, owner: map<nat, Owner>, ram': seq<Page>, owner': map<nat, Owner>, tr: nat,
                   procs: Procs, views: Views, reserved: set<nat>, p: nat)
    requires TableOk(ram, owner, tr, procs, views, reserved) && p in procs
    requires OthersKept(ram, owner, ram', owner', {views[p].id}, {procs[p].tf})
    requires owner' == Disowned(owner[procs[p].tf := Free], views[p].id)
    ensures TableOk(ram', owner', tr, procs - {p}, views - {p}, reserved)
    ensures forall q | q in procs && q != p :: Bystander(ram, ram', procs[q], views[q])
  {
    hide ProcOk, OthersKept, Bystander, Accounted, Disowned;
    Frames(ram, owner, tr, procs[p], views[p]);
    OthersOk(ram, owner, ram', owner', tr, procs, views, {views[p].id}, {procs[p].tf}, {p});
    LeftSets(procs, views, p);
    LosesClaim(owner, TrapFrames(procs), Ids(views), reserved, views[p].id, procs[p].tf);
  }

  lemma LosesClaim(owner: map<nat, Owner>, tfs: set<nat>, ids: set<nat>, reserved: set<nat>, id: nat, k: nat)
    requires Accounted(owner, tfs, ids, reserved) && k in owner && k in tfs
    ensures Accounted(Disowned(owner[k := Free], id), tfs - {k}, ids - {id}, reserved)
  {
    var owner' := Disowned(owner[k := Free], id);
    forall f: nat | f in owner'
      ensures Claimed(owner'[f], tfs - {k}, ids - {id}, reserved, f)
    {
      assert Claimed(owner[f], tfs, ids, reserved, f);
    }
  }

  lemma LeftSets(procs: Procs, views: Views, p: nat)
    requires procs.Keys == views.Keys && p in procs && Apart(procs, views)
    ensures TrapFrames(procs - {p}) == TrapFrames(procs) - {procs[p].tf}
    ensures Ids(views - {p}) == Ids(views) - {views[p].id}
  {
    assert forall q | q in procs && q != p :: (procs - {p})[q].tf == procs[q].tf;
    assert forall q | q in views && q != p :: (views - {p})[q].id == views[q].id;
  }

  // ----- what the table promises -----

  /** No page of user memory is shared: it is no other page of user memory, no page of any page table, no
      trap frame, none the kernel keeps, and not free. */
  lemma NoSharing(ram: seq<Page>, owner: map<nat, Owner>, tr: nat, procs: Procs, views: Views, reserved: set<nat>,
                  p: nat, n: nat)
    requires TableOk(ram, owner, tr, procs, views, reserved) && p in procs && n < PgUp(procs[p].sz)
    ensures n in views[p].s.flat
    ensures var f := FrameOf(views[p].s.flat[n]);
            && f in owner && !owner[f].Free? && f !in reserved && f !in TrapFrames(procs)
            && (forall q | q in procs :: NoTable(views[q], f))
            && forall q, m: nat | q in procs && m < PgUp(procs[q].sz) && (q, m) != (p, n) :: !Maps(views[q], m, f)
  {
    hide FrameOf, ProcOk, Accounted, Maps, NoTable;
    UserPage(ram, owner, tr, procs[p], views[p], n);
    var f := FrameOf(views[p].s.flat[n]);
    NotReserved(owner, TrapFrames(procs), Ids(views), reserved, f);
    forall q | q in procs
      ensures procs[q].tf != f && NoTable(views[q], f)
    {
      Frames(ram, owner, tr, procs[q], views[q]);
      TablePages(ram, owner, tr, procs[q], views[q], f);
    }
    forall q, m: nat | q in procs && m < PgUp(procs[q].sz) && (q, m) != (p, n)
      ensures !Maps(views[q], m, f)
    {
      UserPage(ram, owner, tr, procs[q], views[q], m);
    }
  }

  predicate Maps(v: View, m: nat, f: nat) {
    m in v.s.flat && FrameOf(v.s.flat[m]) == f
  }

  predicate NoTable(v: View, f: nat) {
    forall c | c in v.s.node :: v.s.node[c] != f
  }

  lemma UserPage(ram: seq<Page>, owner: map<nat, Owner>, tr: nat, p: Proc, v: View, n: nat)
    requires ProcOk(ram, owner, tr, p, v) && n < PgUp(p.sz)
    ensures n in v.s.flat && FrameOf(v.s.flat[n]) in owner && owner[FrameOf(v.s.flat[n])] == Data(v.id, n)
    ensures forall f | Maps(v, n, f) :: f in owner && owner[f] == Data(v.id, n)
  {
    assert PageBacked(owner, v.id, v.s, n);
  }

  lemma TablePages(ram: seq<Page>, owner: map<nat, Owner>, tr: nat, p: Proc, v: View, f: nat)
    requires ProcOk(ram, owner, tr, p, v) && f in owner && !owner[f].Table?
    ensures NoTable(v, f)
  {
    forall c | c in v.s.node
      ensures v.s.node[c] != f
    {
      assert NodeOk(owner, v.id, v.s, c);
    }
  }

  lemma NotReserved(owner: map<nat, Owner>, tfs: set<nat>, ids: set<nat>, reserved: set<nat>, f: nat)
    requires Accounted(owner, tfs, ids, reserved) && f in owner && owner[f].Data?
    ensures f !in reserved && owner[f].id in ids
  {
    assert Claimed(owner[f], tfs, ids, reserved, f);
  }

  /** When no process is left, every page is free that was before there were any. */
  lemma AllBack(ram: seq<Page>, owner: map<nat, Owner>, tr: nat, procs: Procs, views: Views, reserved: set<nat>)
    requires TableOk(ram, owner, tr, procs, views, reserved) && procs == map[]
    ensures forall f: nat | f in owner :: owner[f].Free? <==> f !in reserved
  {
    assert TrapFrames(procs) == {} && Ids(views) == {};
    forall f: nat | f in owner
      ensures owner[f].Free? <==> f !in reserved
    {
      assert Claimed(owner[f], TrapFrames(procs), Ids(views), reserved, f);
    }
  }

  lemma FreshId(ram: seq<Page>, owner: map<nat, Owner>, tr: nat, procs: Procs, views: Views, reserved: set<nat>,
                id: nat)
    requires TableOk(ram, owner, tr, procs, views, reserved) && forall p | p in views :: views[p].id < id
    ensures Unheard(owner, id) && id !in Ids(views)
  {
    forall f | f in owner
      ensures !Mine(owner[f], id)
    {
      assert Claimed(owner[f], TrapFrames(procs), Ids(views), reserved, f);
    }
  }

  /** The size of a process fits 32 bits when physical memory does. */
  lemma SizeFits(ram: seq<Page>, owner: map<nat, Owner>, tr: nat, p: Proc, v: View, first: nat, limit: nat)
    requires ProcOk(ram, owner, tr, p, v) && 0 < first <= limit <= 0x10_0000
    requires forall f | f in owner :: first <= f < limit
    ensures p.sz < 0x1_0000_0000
  {
    RegionSmall(owner, v.id, v.s, PgUp(p.sz), first, limit);
  }

  // ----- writing a trap frame -----

  lemma KeptWrite(r0: seq<Page>, o0: map<nat, Owner>, r1: seq<Page>, o1: map<nat, Owner>, id: nat, k: nat, x: Page)
    requires OthersKept(r0, o0, r1, o1, {id}, {k}) && k < |r1|
    ensures OthersKept(r0, o0, r1[k := x], o1, {id}, {k})
  {
    forall f: nat | f in o0
      ensures KeptAt(r0, o0, r1[k := x], o1, {id}, {k}, f)
    {
      assert KeptAt(r0, o0, r1, o1, {id}, {k}, f);
    }
  }

  lemma CopiesWrite(ram: seq<Page>, owner: map<nat, Owner>, pid: nat, ps: Space, cid: nat, cs: Space, np: nat, k: nat,
                    x: Page)
    requires Region(owner, pid, ps, np) && Region(owner, cid, cs, np) && Copies(ram, ps, cs, np)
    requires k in owner && owner[k].Kernel? && k < |ram|
    ensures Copies(ram[k := x], ps, cs, np)
  {
    hide FrameOf, FlagsOf;
    var ram' := ram[k := x];
    forall n: nat | n < np
      ensures CopyAt(ram', ps, cs, n)
    {
      assert CopyAt(ram, ps, cs, n) && PageBacked(owner, pid, ps, n) && PageBacked(owner, cid, cs, n);
    }
  }

  /** The pages a process keeps when it grows or shrinks. */
  lemma KeptPages(ram: seq<Page>, owner: map<nat, Owner>, ram': seq<Page>, owner': map<nat, Owner>, id: nat, s: Space,
                  np: nat, k: nat)
    requires SpaceOk(ram, owner, id, s) && Region(owner, id, s, np) && Untouched(ram, owner, ram', owner', id, k)
    requires k <= np
    ensures SameMemory(ram, ram', View(id, s), k)
  {
    hide FrameOf;
    InMemory(ram, owner, id, s);
    forall n: nat | n < k
      ensures SamePage(ram, ram', s, n)
    {
      assert PageBacked(owner, id, s, n) && Spared(ram, owner, ram', owner', id, k, FrameOf(s.flat[n]));
    }
  }

  /** The register `a0` in a trap frame, counted in words. */
  const A0: nat := 14

  /** One more process, of size `sz`. */
  predicate Joined(procs: Procs, views: Views, procs': Procs, views': Views, c: nat, sz: nat) {
    && c in procs' && c in views' && procs'[c].sz == sz
    && procs' == procs[c := procs'[c]] && views' == views[c := views'[c]]
  }

  /** A child has a copy of its parent's user memory, and of its trap frame except that `a0` is 0. */
  predicate Child(ram: seq<Page>, p: Proc, pv: View, c: Proc, cv: View) {
    && Copies(ram, pv.s, cv.s, PgUp(p.sz)) && c.sz == p.sz
    && p.tf < |ram| && c.tf < |ram| && ram[c.tf] == Page(ram[p.tf].w[A0 := 0])
  }

  /** Below the stack page, the last one, is a page the user cannot use. */
  predicate Guarded(p: Proc, v: View) {
    && 2 <= PgUp(p.sz) && PgUp(p.sz) - 2 in v.s.flat && !IsUser(v.s.flat[PgUp(p.sz) - 2])
  }

  class ProcTable {
    const mem: Memory
    const tr: nat
    ghost const reserved: set<nat>
    var procs: Procs
    ghost var views: Views
    ghost var nextId: nat

    /** Physical memory is below 4 GB, as `PHYSTOP` is. */
    ghost predicate Valid()
      reads this, mem
    {
      && mem.Valid() && mem.limit <= 0x10_0000 && tr < MAXFRAME && procs.Keys == views.Keys
      && TableOk(mem.ram, mem.owner, tr, procs, views, reserved)
      && forall p | p in views :: views[p].id < nextId
    }

    /** No process yet; the pages in use are the kernel's. */
    constructor (mem: Memory, tr: nat)
      requires mem.Valid() && mem.limit <= 0x10_0000 && tr < MAXFRAME
      requires forall f: nat | f in mem.owner :: mem.owner[f].Free? || mem.owner[f].Kernel?
      ensures Valid() && this.mem == mem && procs == map[]
      ensures reserved == set f | f in mem.owner && mem.owner[f].Kernel?
    {
      this.mem, this.tr := mem, tr;
      reserved := set f | f in mem.owner && mem.owner[f].Kernel?;
      procs, views, nextId := map[], map[], 0;
    }

    /** A new process with no user memory; false means no memory, and then nothing has changed hands. */
    method Alloc(c: nat) returns (ok: bool)
      requires Valid() && c !in procs
      modifies this, mem
      ensures Valid() && (ok <==> |old(mem.freelist)| >= 1 + SpaceCost(0))
      ensures !ok ==> procs == old(procs) && views == old(views) && mem.owner == old(mem.owner)
      ensures ok ==> Joined(old(procs), old(views), procs, views, c, 0)
      ensures forall q | q in old(procs) :: Bystander(old(mem.ram), mem.ram, old(procs)[q], old(views)[q])
    {
      hide TableOk, OthersKept, Bystander, SpaceOk, Region, Trapped, Unheard;
      ghost var r0, o0, id := mem.ram, mem.owner, nextId;
      FreshId(r0, o0, tr, procs, views, reserved, id);
      var root, tf, s := mem.Allocproc(tr, id);
      ok := root != 0;
      if !ok {
        TableSame(r0, o0, mem.ram, tr, procs, views, reserved, id);
        return;
      }
      TableGains(r0, o0, mem.ram, mem.owner, tr, procs, views, reserved, c, Proc(root, 0, tf), View(id, s));
      procs, views, nextId := procs[c := Proc(root, 0, tf)], views[c := View(id, s)], id + 1;
    }

    /** `fork`: the child `c` has a copy of the parent's user memory, and of its trap frame except that
        `a0` is 0. False means no memory, and then nothing has changed hands. */
    method Fork(p: nat, c: nat) returns (ok: bool)
      requires Valid() && p in procs && c !in procs
      modifies this, mem
      ensures Valid() && (ok <==> |old(mem.freelist)| >= 1 + SpaceCost(PgUp(old(procs)[p].sz)))
      ensures !ok ==> procs == old(procs) && views == old(views) && mem.owner == old(mem.owner)
      ensures ok ==>
                && Joined(old(procs), old(views), procs, views, c, old(procs)[p].sz)
                && Child(mem.ram, procs[p], views[p], procs[c], views[c])
      ensures forall q | q in old(procs) :: Bystander(old(mem.ram), mem.ram, old(procs)[q], old(views)[q])
    {
      hide TableOk, OthersKept, Bystander, SpaceOk, Region, Trapped, Unheard, Copies, Toll, SpaceCost;
      ghost var r0, o0, id, ps := mem.ram, mem.owner, nextId, views[p].s;
      var sz, ptf := procs[p].sz, procs[p].tf;
      TableAt(r0, o0, tr, procs, views, reserved, p);
      FreshId(r0, o0, tr, procs, views, reserved, id);
      ForkCost(o0, views[p].id, ps, PgUp(sz), mem.first, mem.limit);
      var root, tf, s := mem.ForkMemory(procs[p].root, sz, tr, views[p].id, ps, id);
      ok := root != 0;
      if !ok {
        TableSame(r0, o0, mem.ram, tr, procs, views, reserved, id);
        return;
      }
      ghost var r1 := mem.ram;
      mem.ram := mem.ram[tf := Page(mem.ram[ptf].w[A0 := 0])];
      KeptWrite(r0, o0, r1, mem.owner, id, tf, mem.ram[tf]);
      NonTablePage(r1, mem.ram, mem.owner, mem.owner, id, s, tf);
      CopiesWrite(r1, mem.owner, views[p].id, ps, id, s, PgUp(sz), tf, mem.ram[tf]);
      TableGains(r0, o0, mem.ram, mem.owner, tr, procs, views, reserved, c, Proc(root, sz, tf), View(id, s));
      procs, views, nextId := procs[c := Proc(root, sz, tf)], views[c := View(id, s)], id + 1;
    }

    /** `sbrk`: the process grows or shrinks by `n` bytes. The pages it keeps keep their contents, new
        pages are zeroed, and no other process notices. */
    method Sbrk(p: nat, n: int) returns (r: int)
      requires Valid() && p in procs && -0x8000_0000 <= n < 0x8000_0000
      modifies this, mem
      ensures Valid() && p in procs && procs == old(procs)[p := old(procs)[p].(sz := procs[p].sz)]
      ensures views == old(views)[p := views[p]] && (r == 0 || r == -1)
      ensures r == -1 ==> n > 0 && procs == old(procs)
      ensures var sz := old(procs)[p].sz;
              r == -1 <==> 0 <= sz + n < 0x1_0000_0000 && n > 0
                           && TooFew(|old(mem.freelist)|, old(views)[p].s, PgUp(sz), PgUp(sz + n))
      ensures r == 0 ==> procs[p].sz == old(procs)[p].sz + n
                         || (procs == old(procs) && !(0 <= old(procs)[p].sz + n < 0x1_0000_0000))
      ensures var sz, sz' := old(procs)[p].sz, procs[p].sz;
              && SameMemory(old(mem.ram), mem.ram, old(views)[p], if sz' < sz then PgUp(sz') else PgUp(sz))
              && (sz' > sz ==> Zeros(mem.ram, views[p].s, PgUp(sz), PgUp(sz')))
      ensures forall q | q in old(procs) && q != p :: Bystander(old(mem.ram), mem.ram, old(procs)[q], old(views)[q])
    {
      hide TableOk, OthersKept, Bystander, SpaceOk, Region, Trapped, Unheard, Zeros, SameMemory, Untouched,
          TookTables, Added, DropRange, TooFew;
      ghost var r0, o0, v := mem.ram, mem.owner, views[p];
      var pr := procs[p];
      TableAt(r0, o0, tr, procs, views, reserved, p);
      SizeFits(r0, o0, tr, pr, v, mem.first, mem.limit);
      var sz;
      ghost var s;
      r, sz, s := mem.Growproc(pr.root, pr.sz, n, v.id, v.s);
      ghost var k := if sz < pr.sz then PgUp(sz) else PgUp(pr.sz);
      KeptPages(r0, o0, mem.ram, mem.owner, v.id, v.s, PgUp(pr.sz), k);
      KeptUntouched(r0, o0, mem.ram, mem.owner, v.id, k);
      assert {v.id, v.id} == {v.id};
      StillKernel(r0, o0, mem.ram, mem.owner, {v.id}, pr.tf);
      StillTrapped(v.s, s, pr.tf, tr);
      TableChanges(r0, o0, mem.ram, mem.owner, tr, procs, views, reserved, p, pr.(sz := sz), View(v.id, s));
      procs, views := procs[p := pr.(sz := sz)], views[p := View(v.id, s)];
    }

    /** `exec`: the process gets a new address space, which holds the program the segments make and a guarded
        stack, or keeps all it had. No other process notices, and no panic happens. */
    method Exec(p: nat, segs: seq<Image.Segment>, argsFit: bool) returns (r: int)
      requires Valid() && p in procs
      modifies this, mem
      ensures Valid() && p in procs && (r == 0 || r == -1)
      ensures r == 0 <==> argsFit && Image.Loads(segs) && |old(mem.freelist)| >= ExecCost(segs)
      ensures r == -1 ==> procs == old(procs) && views == old(views) && mem.owner == old(mem.owner)
                          && Bystander(old(mem.ram), mem.ram, procs[p], views[p])
      ensures r == 0 ==>
                && procs == old(procs)[p := procs[p]] && views == old(views)[p := views[p]]
                && procs[p].tf == old(procs)[p].tf && views[p].id != old(views)[p].id && argsFit
                && Image.AllFine(segs) && procs[p].sz == (PgUp(Image.SizeOf(segs)) + 2) * PGSIZE
                && Shows(mem.ram, views[p].s, Image.Program(segs)) && Guarded(procs[p], views[p])
      ensures forall q | q in old(procs) && q != p :: Bystander(old(mem.ram), mem.ram, old(procs)[q], old(views)[q])
    {
      hide TableOk, OthersKept, Bystander, SpaceOk, Region, Trapped, Unheard, Untouched, IsUser, Shows, ExecCost,
          Image.Loads, Image.AllFine, Image.SizeOf, Image.Program;
      ghost var r0, o0, v, id := mem.ram, mem.owner, views[p], nextId;
      var pr := procs[p];
      TableAt(r0, o0, tr, procs, views, reserved, p);
      FreshId(r0, o0, tr, procs, views, reserved, id);
      var root, sz, s := mem.ExecMemory(pr.root, pr.sz, pr.tf, tr, segs, argsFit, v.id, v.s, id);
      if root == 0 {
        KeptUntouched(r0, o0, mem.ram, mem.owner, id, 0);
        TableSame(r0, o0, mem.ram, tr, procs, views, reserved, id);
        return -1;
      }
      RegionLast(mem.owner, id, s, PgUp(sz));
      StillKernel(r0, o0, mem.ram, mem.owner, {v.id, id}, pr.tf);
      TableChanges(r0, o0, mem.ram, mem.owner, tr, procs, views, reserved, p, Proc(root, sz, pr.tf), View(id, s));
      procs, views, nextId := procs[p := Proc(root, sz, pr.tf)], views[p := View(id, s)], id + 1;
      r := 0;
    }

    /** `freeproc`, when the parent's `wait` finds the process dead: exactly its pages become free. */
    method Reap(p: nat)
      requires Valid() && p in procs
      modifies this, mem
      ensures Valid() && procs == old(procs) - {p} && views == old(views) - {p}
      ensures mem.owner == Disowned(old(mem.owner)[old(procs)[p].tf := Free], old(views)[p].id)
      ensures forall q | q in procs :: Bystander(old(mem.ram), mem.ram, procs[q], views[q])
    {
      hide TableOk, OthersKept, Bystander, SpaceOk, Region, Trapped, Unheard, Disowned;
      ghost var r0, o0, v := mem.ram, mem.owner, views[p];
      var pr := procs[p];
      TableAt(r0, o0, tr, procs, views, reserved, p);
      mem.Freeproc(pr.tf, pr.root, pr.sz, v.id, v.s);
      TableLoses(r0, o0, mem.ram, mem.owner, tr, procs, views, reserved, p);
      procs, views := procs - {p}, views - {p};
    }
  }

  lemma TableAt(ram: seq<Page>, owner: map<nat, Owner>, tr: nat, procs: Procs, views: Views, reserved: set<nat>, p: nat)
    requires TableOk(ram, owner, tr, procs, views, reserved) && p in procs
    ensures p in views && procs.Keys == views.Keys && ProcOk(ram, owner, tr, procs[p], views[p])
    ensures TOP in views[p].s.flat && TOP + 1 in views[p].s.flat && procs[p].tf < |ram| && procs[p].tf < MAXFRAME
    ensures SpaceOk(ram, owner, views[p].id, views[p].s) && Region(owner, views[p].id, views[p].s, PgUp(procs[p].sz))
  {
    InMemory(ram, owner, views[p].id, views[p].s);
  }

  lemma StillKernel(ram: seq<Page>, owner: map<nat, Owner>, ram': seq<Page>, owner': map<nat, Owner>, ids: set<nat>,
                    tf: nat)
    requires OthersKept(ram, owner, ram', owner', ids, {}) && tf in owner && owner[tf].Kernel?
    ensures tf in owner' && owner'[tf].Kernel?
  {
    assert KeptAt(ram, owner, ram', owner', ids, {}, tf);
  }

  /** What the memory of a process of `np` pages takes. */
  lemma ForkCost(owner: map<nat, Owner>, id: nat, s: Space, np: nat, first: nat, limit: nat)
    requires Region(owner, id, s, np) && first <= limit <= 0x10_0000 && forall f | f in owner :: first <= f < limit
    ensures |HIGH| + Toll(HIGH, 0, np) == SpaceCost(np)
  {
    RegionSmall(owner, id, s, np, first, limit);
    FirstToll(np);
  }

  lemma StillTrapped(s: Space, s': Space, tf: nat, tr: nat)
    requires Trapped(s, tf, tr) && SameHigh(s, s')
    ensures Trapped(s', tf, tr)
  {
  }
}
