/** The page allocator and the page-table code on top of it, as a class whose methods change physical
    memory, the free list and the page tables in it.

    The ghost map `owner` says what every page is used for. A `Space` is the tree of table pages and the
    flat map that one address space stands for; it is passed along as a ghost argument. */
module Vm {
  import opened Basics
  import opened PageTable
  import opened FreeTree
  import opened TableCount
  import Image
  import Words

  const PGSIZE: nat := 4096

  /** The number of pages that hold `sz` bytes. */
  function PgUp(sz: nat): nat {
    (sz + PGSIZE - 1) / PGSIZE
  }

  lemma PgUpExact(n: nat)
    ensures PgUp(n * PGSIZE) == n
  {
  }

  /** What `mappages` ends with: a panic, no memory for a table page, or everything mapped. */
  datatype Mapping = Refused | NoMemory | Mapped

  /** What `walk` finds: a panic, no page-table page, or the level-0 page. */
  datatype Walked = OutOfRange | Missing | At(table: nat)

  /** The free list holds the free pages, each once. */
  predicate FreeOk(freelist: seq<nat>, owner: map<nat, Owner>) {
    && (forall k | 0 <= k < |freelist| :: freelist[k] in owner && owner[freelist[k]].Free?)
    && (forall k, l | 0 <= k < l < |freelist| :: freelist[k] != freelist[l])
    && forall f: nat | f in owner && owner[f].Free? :: f in freelist
  }

  predicate TookOk(owner: map<nat, Owner>, owner': map<nat, Owner>, id: nat, f: nat)
    requires f in owner && f in owner'
  {
    owner'[f] == owner[f] || (owner[f].Free? && owner'[f].Table? && owner'[f].id == id)
  }

  /** Nothing but free pages that became table pages of address space `id`. */
  predicate TookTables(owner: map<nat, Owner>, owner': map<nat, Owner>, id: nat) {
    owner.Keys == owner'.Keys && forall f: nat | f in owner :: TookOk(owner, owner', id, f)
  }

  lemma TookTrans(o0: map<nat, Owner>, o1: map<nat, Owner>, o2: map<nat, Owner>, id: nat)
    requires TookTables(o0, o1, id) && TookTables(o1, o2, id)
    ensures TookTables(o0, o2, id)
  {
    forall f: nat | f in o0
      ensures TookOk(o0, o2, id, f)
    {
      assert TookOk(o0, o1, id, f) && TookOk(o1, o2, id, f);
    }
  }

  function KernelPages(lo: nat, hi: nat): (r: map<nat, Owner>)
    requires lo <= hi
    ensures forall f: nat :: f in r <==> lo <= f < hi
    ensures forall f: nat | f in r :: r[f].Kernel?
  {
    if lo == hi then map[] else KernelPages(lo, hi - 1)[hi - 1 := Kernel]
  }

  /** A free page became a table page, linked from another page of the same address space. */
  lemma TableTaken(ram: seq<Page>, ram': seq<Page>, owner: map<nat, Owner>, owner': map<nat, Owner>, id: nat, t: nat,
                   f: nat, c: Place)
    requires f in owner && owner[f].Free? && owner' == owner[f := Table(id, c)] && t in owner && owner[t].Table?
    requires owner[t].id == id
    requires |ram'| == |ram| && forall g: nat | g < |ram| && g != f && g != t :: ram'[g] == ram[g]
    ensures Untouched(ram, owner, ram', owner', id, MAXVPN) && TookTables(owner, owner', id)
  {
  }

  lemma NothingTaken(ram: seq<Page>, owner: map<nat, Owner>, id: nat)
    ensures Untouched(ram, owner, ram, owner, id, MAXVPN) && TookTables(owner, owner, id)
  {
  }

  lemma RootIsTop(n: nat)
    requires n < MAXVPN
    ensures Up(n, 3) == ROOT
  {
    assert Up(n, 1) == Place(1, Hi(n));
    assert Up(n, 2) == Place(2, Hi(Hi(n)));
  }

  lemma {:induction false} UpLevel(n: nat, level: nat)
    ensures Up(n, level).level == level
  {
    if level > 0 {
      UpLevel(n, level - 1);
    }
  }

  lemma UpStep(n: nat, level: nat)
    requires level > 0
    ensures Parent(Up(n, level)) == Up(n, level + 1) && Up(n, level).level == level
  {
    UpLevel(n, level);
  }

  lemma UpOne(n: nat)
    ensures Up(n, 1) == Parent(Place(0, n))
  {
  }

  lemma MinePageWritten(ram: seq<Page>, ram': seq<Page>, owner: map<nat, Owner>, id: nat, t: nat)
    requires t in owner && owner[t].Table? && owner[t].id == id && |ram'| == |ram|
    requires forall g: nat | g < |ram| && g != t :: ram'[g] == ram[g]
    ensures Untouched(ram, owner, ram', owner, id, MAXVPN)
  {
  }

  /** The entry `walk` reads: a link exactly when the place below is in the tree. */
  lemma WalkEntry(ram: seq<Page>, s: Space, c: Place, t: nat)
    requires t < |ram| <= MAXFRAME && Word(ram, t, Lo(c.key)) == Expect(s, c) && c.level > 0
    requires (c in s.node ==> s.node[c] < |ram|)
    ensures var e := ram[t].w[Lo(c.key)]; IsValid(e) == (c in s.node) && (c in s.node ==> FrameOf(e) == s.node[c])
  {
  }

  /** Table pages on the way to what is wanted have been added, each for a free page. */
  predicate Charged(free0: nat, free: nat, s: Space, s': Space, want: set<Place>) {
    s.node.Keys <= s'.node.Keys <= s.node.Keys + want && free + |s'.node.Keys| == free0 + |s.node.Keys|
  }

  lemma ChargedOne(free0: nat, free: nat, s: Space, s1: Space, s': Space, want: set<Place>, c: Place, f: nat)
    requires Charged(free0, free + 1, s, s1, want) && c in want && c !in s1.node && s'.node == s1.node[c := f]
    ensures Charged(free0, free, s, s', want)
  {
    assert s'.node.Keys == s1.node.Keys + {c};
  }

  lemma WayThere(ram: seq<Page>, owner: map<nat, Owner>, id: nat, s: Space, n: nat)
    requires SpaceOk(ram, owner, id, s) && Up(n, 1) in s.node
    ensures Way(n) <= s.node.Keys
  {
    assert NodeOk(owner, id, s, Up(n, 1));
    UpStep(n, 1);
  }

  /** Exactly the tables wanted have been added, and those that were missing paid for. */
  predicate Bought(free0: nat, free: nat, s: Space, s': Space, want: set<Place>) {
    s'.node.Keys == s.node.Keys + want && free0 == free + |want - s.node.Keys|
  }

  /** Fewer pages were free than tables were missing. */
  predicate Short(free0: nat, s: Space, want: set<Place>) {
    free0 < |want - s.node.Keys|
  }

  lemma BoughtNothing(free: nat, s: Space, n: nat)
    ensures Bought(free, free, s, s, Ways(n, n))
  {
    assert {} - s.node.Keys == {};
  }

  lemma BoughtMore(free0: nat, free1: nat, free: nat, s: Space, s1: Space, s': Space, lo: nat, n: nat)
    requires lo <= n && Bought(free0, free1, s, s1, Ways(lo, n))
    ensures Bought(free1, free, s1, s', Way(n)) ==> Bought(free0, free, s, s', Ways(lo, n + 1))
    ensures Short(free1, s1, Way(n)) ==> Short(free0, s, Ways(lo, n + 1))
  {
    SplitMissing(Ways(lo, n), Way(n), s.node.Keys);
  }

  /** The pages and tables for the virtual pages from `lo` to `hi` have been taken from the free list, and no
      others. */
  predicate Paid(free0: nat, free: nat, s: Space, s': Space, lo: nat, hi: nat) {
    lo <= hi && s'.node.Keys == s.node.Keys + Ways(lo, hi) && free0 == free + Toll(s.node.Keys, lo, hi)
  }

  /** Fewer pages were free than the virtual pages from `lo` to `hi` take. */
  predicate TooFew(free0: nat, s: Space, lo: nat, hi: nat) {
    lo <= hi && free0 < Toll(s.node.Keys, lo, hi)
  }

  lemma PaidNothing(free: nat, s: Space, n: nat)
    ensures Paid(free, free, s, s, n, n)
  {
    TollOne(s.node.Keys, n);
  }

  lemma PaidStep(free0: nat, free1: nat, free: nat, s: Space, s1: Space, s': Space, lo: nat, n: nat)
    requires Paid(free0, free1, s, s1, lo, n) && s'.node.Keys == s1.node.Keys + Way(n)
    requires free1 == free + 1 + |Way(n) - s1.node.Keys|
    ensures Paid(free0, free, s, s', lo, n + 1)
  {
    TollStep(s.node.Keys, lo, n, n + 1);
  }

  lemma RanOut(free0: nat, free1: nat, s: Space, s1: Space, lo: nat, n: nat, hi: nat)
    requires Paid(free0, free1, s, s1, lo, n) && n < hi && free1 < 1 + |Way(n) - s1.node.Keys|
    ensures TooFew(free0, s, lo, hi)
  {
    TollStep(s.node.Keys, lo, n, hi);
  }

  /** The way to the trampoline is two table pages, and that to the trap frame is the same. */
  lemma HighWay()
    ensures Way(TOP) == Way(TOP + 1) == HIGH - {ROOT} && |HIGH - {ROOT}| == 2
  {
    WayKeys(TOP);
    WayKeys(TOP + 1);
    HighSize();
    assert HIGH == HIGH - {ROOT} + {ROOT};
  }

  lemma HighShort(free: nat, s: Space, root: nat)
    requires Short(free, s, Way(TOP + 1)) && s.node == map[ROOT := root]
    ensures free + 1 < |HIGH|
  {
    HighWay();
    HighSize();
    assert HIGH - {ROOT} - s.node.Keys == HIGH - {ROOT};
  }

  lemma HighBought(free0: nat, free: nat, s: Space, s': Space, root: nat)
    requires Bought(free0, free, s, s', Way(TOP + 1)) && s.node == map[ROOT := root]
    ensures s'.node.Keys == HIGH && free0 + 1 == free + |HIGH|
  {
    HighWay();
    HighSize();
    assert HIGH - {ROOT} - s.node.Keys == HIGH - {ROOT};
  }

  /** The trap frame needs no more tables. */
  lemma HighThere(free: nat, s: Space)
    requires s.node.Keys == HIGH
    ensures !Short(free, s, Way(TOP))
  {
    HighWay();
    assert HIGH - {ROOT} - s.node.Keys == {};
  }

  lemma HighStays(free0: nat, free: nat, s: Space, s': Space)
    requires Bought(free0, free, s, s', Way(TOP)) && s.node.Keys == HIGH
    ensures s'.node.Keys == HIGH && free0 == free
  {
    HighWay();
    assert HIGH - {ROOT} - s.node.Keys == {};
  }

  lemma PaidEnough(free0: nat, free: nat, s: Space, s': Space, lo: nat, hi: nat)
    requires Paid(free0, free, s, s', lo, hi)
    ensures !TooFew(free0, s, lo, hi)
  {
  }

  /** Paid in two parts. */
  lemma PaidTwice(free0: nat, free1: nat, free: nat, s: Space, s1: Space, s': Space, lo: nat, m: nat, hi: nat)
    requires Paid(free0, free1, s, s1, lo, m) && Paid(free1, free, s1, s', m, hi)
    ensures Paid(free0, free, s, s', lo, hi)
  {
    TollSplit(s.node.Keys, lo, m, hi);
  }

  lemma TooFewLater(free0: nat, free1: nat, s: Space, s1: Space, lo: nat, m: nat, hi: nat, top: nat)
    requires Paid(free0, free1, s, s1, lo, m) && TooFew(free1, s1, m, hi) && hi <= top
    ensures TooFew(free0, s, lo, top)
  {
    TollSplit(s.node.Keys, lo, m, hi);
    TollSplit(s.node.Keys, lo, hi, top);
  }

  /** A place is missing when one above it is. */
  lemma MissingBelow(owner: map<nat, Owner>, id: nat, ram: seq<Page>, s: Space, n: nat, level: nat)
    requires SpaceOk(ram, owner, id, s) && 1 <= level <= 2 && Up(n, level) !in s.node
    ensures Up(n, 1) !in s.node
  {
    assert Up(n, 2) == Parent(Up(n, 1)) && Up(n, 1).level == 1;
    assert Up(n, 1) in s.node ==> NodeOk(owner, id, s, Up(n, 1));
  }

  /** A page that is no table page, before and after, matters to no address space's tree. */
  lemma NonTablePage(ram: seq<Page>, ram': seq<Page>, owner: map<nat, Owner>, owner': map<nat, Owner>, id: nat,
                     s: Space, f: nat)
    requires SpaceOk(ram, owner, id, s) && f in owner && !owner[f].Table? && |ram'| == |ram|
    requires owner'.Keys == owner.Keys && !owner'[f].Table?
    requires forall g: nat | g in owner && g != f :: owner'[g] == owner[g]
    requires forall g: nat | g < |ram| && g != f :: ram'[g] == ram[g]
    ensures SpaceOk(ram', owner', id, s)
  {
    hide Hi, Lo, Link;
    forall p | p in s.node
      ensures NodeOk(owner', id, s, p)
    {
      assert NodeOk(owner, id, s, p);
    }
    forall g: nat | g in owner'
      ensures NoStray(owner', id, s, g)
    {
      assert NoStray(owner, id, s, g);
    }
    forall c: Place
      ensures WordOk(ram', s, c)
    {
      assert WordOk(ram, s, c);
      assert Parent(c) in s.node ==> NodeOk(owner, id, s, Parent(c));
    }
  }

  // ----- ranges of mappings -----

  function OrV(perm: nat): nat {
    if perm % 2 == 1 then perm else perm + 1
  }

  /** Permission bits that make a leaf. */
  predicate LeafPerm(perm: nat) {
    perm < 1024 && perm / 2 % 8 != 0
  }

  lemma LeafPte(f: nat, perm: nat)
    requires f < MAXFRAME && LeafPerm(perm)
    ensures OrV(perm) < 1024 && LeafEntry(Pte(f, OrV(perm))) && Pte(f, OrV(perm)) != 0
  {
    var q := perm / 2;
    assert OrV(perm) == 2 * q + 1;
    Bits(f * 512 + q, 1);
    Eights(f * 64, q);
  }

  lemma Bits(x: nat, r: nat)
    requires r < 2
    ensures (2 * x + r) / 2 == x && (2 * x + r) % 2 == r
  {
  }

  lemma Eights(x: nat, q: nat)
    ensures (8 * x + q) % 8 == q % 8
  {
    assert 8 * x + q == 8 * (x + q / 8) + q % 8;
  }

  lemma PermBound(perm: nat)
    requires LeafPerm(perm)
    ensures perm < 1024
  {
  }

  lemma UnmappedBelow(ram: seq<Page>, owner: map<nat, Owner>, id: nat, s: Space, n: nat)
    requires SpaceOk(ram, owner, id, s) && Up(n, 1) !in s.node
    ensures n !in s.flat
  {
    UpOne(n);
    assert n in s.flat ==> FlatOk(s, n);
  }

  /** `flat` with `k` pages from `n` on mapped to consecutive physical pages from `f` on. */
  function AddRange(flat: map<nat, U64>, n: nat, k: nat, f: nat, perm: nat): map<nat, U64>
    requires f + k <= MAXFRAME && perm < 1024
  {
    if k == 0 then flat else AddRange(flat, n, k - 1, f, perm)[n + k - 1 := Pte(f + k - 1, OrV(perm))]
  }

  /** The page of the last byte of `size` bytes from `va` on, in 64-bit arithmetic. */
  function LastPage(va: U64, size: U64): nat
    requires size > 0
  {
    (va + size - 1) % 0x1_0000_0000_0000_0000 / PGSIZE
  }

  /** No more physical pages than these can be asked for. */
  function Span(va: U64, size: U64): nat {
    if size == 0 then 0
    else if va / PGSIZE <= LastPage(va, size) < MAXVPN then LastPage(va, size) - va / PGSIZE + 1
    else MAXVPN + 1
  }

  lemma OnePage(a: nat)
    requires a < MAXVPN
    ensures a * PGSIZE / PGSIZE == a == LastPage(a * PGSIZE, PGSIZE) && Span(a * PGSIZE, PGSIZE) == 1
  {
    assert a * PGSIZE + PGSIZE - 1 < 0x1_0000_0000_0000_0000;
  }

  /** `AddRange` adds exactly its range. */
  lemma {:induction false} AddRangeAt(flat: map<nat, U64>, n: nat, k: nat, f: nat, perm: nat, m: nat)
    requires f + k <= MAXFRAME && perm < 1024
    ensures var r := AddRange(flat, n, k, f, perm);
            if n <= m < n + k then m in r && r[m] == Pte(f + (m - n), OrV(perm))
            else (m in r <==> m in flat) && (m in flat ==> r[m] == flat[m])
  {
    if k > 0 {
      AddRangeAt(flat, n, k - 1, f, perm, m);
    }
  }

  /** No page from `lo` to `hi` is mapped. */
  predicate Vacant(flat: map<nat, U64>, lo: nat, hi: nat) {
    forall m: nat | lo <= m < hi :: m !in flat
  }

  lemma AddNothing(flat: map<nat, U64>, n: nat, f: nat, perm: nat)
    requires f <= MAXFRAME && perm < 1024
    ensures AddRange(flat, n, 0, f, perm) == flat && Vacant(flat, n, n)
  {
  }

  lemma VacantOne(flat: map<nat, U64>, n: nat)
    ensures Vacant(flat, n, n) && (Vacant(flat, n, n + 1) <==> n !in flat)
  {
  }

  lemma AddMore(flat: map<nat, U64>, n: nat, k: nat, f: nat, perm: nat)
    requires f + k + 1 <= MAXFRAME && perm < 1024 && Vacant(flat, n, n + k) && n + k !in flat
    ensures AddRange(flat, n, k + 1, f, perm) == AddRange(flat, n, k, f, perm)[n + k := Pte(f + k, OrV(perm))]
    ensures Vacant(flat, n, n + k + 1)
  {
  }

  function DropRange(flat: map<nat, U64>, lo: nat, hi: nat): map<nat, U64> {
    map n | n in flat && !(lo <= n < hi) :: flat[n]
  }

  predicate InRange(o: Owner, id: nat, lo: nat, hi: nat) {
    o.Data? && o.id == id && lo <= o.n < hi
  }

  /** The data pages of virtual pages `lo` to `hi` given back. */
  function Release(owner: map<nat, Owner>, id: nat, lo: nat, hi: nat): map<nat, Owner> {
    map f | f in owner :: if InRange(owner[f], id, lo, hi) then Free else owner[f]
  }

  predicate PageBacked(owner: map<nat, Owner>, id: nat, s: Space, n: nat)
    requires n in s.flat
  {
    FrameOf(s.flat[n]) in owner && owner[FrameOf(s.flat[n])] == Data(id, n)
  }

  predicate DataMapped(owner: map<nat, Owner>, id: nat, s: Space, lo: nat, hi: nat, f: nat)
    requires f in owner
  {
    InRange(owner[f], id, lo, hi) ==> owner[f].n in s.flat && FrameOf(s.flat[owner[f].n]) == f
  }

  /** Between `lo` and `hi`, mapped pages and owned data pages are the same. */
  predicate Backed(owner: map<nat, Owner>, id: nat, s: Space, lo: nat, hi: nat) {
    && (forall n: nat | lo <= n < hi && n in s.flat :: PageBacked(owner, id, s, n))
    && forall f: nat | f in owner :: DataMapped(owner, id, s, lo, hi, f)
  }

  /** Virtual pages below this may be user memory; the trap frame and the trampoline are above. */
  const TOP: nat := 0x3ff_fffe

  /** The user memory of address space `id` is exactly its first `np` pages, each with a data page of
      its own. */
  predicate Region(owner: map<nat, Owner>, id: nat, s: Space, np: nat) {
    && np <= TOP && Backed(owner, id, s, 0, TOP)
    && (forall n: nat | n < np :: n in s.flat)
    && (forall n: nat | n in s.flat :: n < np || TOP <= n)
    && forall f: nat | f in owner && owner[f].Data? && owner[f].id == id :: owner[f].n < TOP
  }

  /** Page `f` taken for the next virtual page and mapped there. */
  lemma RegionGrows(owner: map<nat, Owner>, owner': map<nat, Owner>, id: nat, s: Space, s': Space, np: nat, f: nat,
                    e: U64)
    requires Region(owner, id, s, np) && np < TOP && s'.flat == s.flat[np := e] && FrameOf(e) == f
    requires f in owner && owner[f].Free? && TookTables(owner[f := Data(id, np)], owner', id)
    ensures Region(owner', id, s', np + 1)
  {
    hide FrameOf;
    var o1 := owner[f := Data(id, np)];
    forall n: nat | n < TOP && n in s'.flat
      ensures PageBacked(owner', id, s', n)
    {
      if n != np {
        assert PageBacked(owner, id, s, n);
      }
      assert TookOk(o1, owner', id, FrameOf(s'.flat[n]));
    }
    forall g: nat | g in owner'
      ensures DataMapped(owner', id, s', 0, TOP, g) && (owner'[g].Data? && owner'[g].id == id ==> owner'[g].n < TOP)
    {
      assert TookOk(o1, owner', id, g);
      if g != f {
        assert DataMapped(owner, id, s, 0, TOP, g);
      }
    }
  }

  /** Taking table pages is no change to the user memory. */
  lemma RegionKept(owner: map<nat, Owner>, owner': map<nat, Owner>, id: nat, s: Space, s': Space, np: nat)
    requires Region(owner, id, s, np) && TookTables(owner, owner', id) && s'.flat == s.flat
    ensures Region(owner', id, s', np)
  {
    hide FrameOf;
    forall n: nat | n < TOP && n in s'.flat
      ensures PageBacked(owner', id, s', n)
    {
      assert PageBacked(owner, id, s, n) && TookOk(owner, owner', id, FrameOf(s.flat[n]));
    }
    forall g: nat | g in owner'
      ensures DataMapped(owner', id, s', 0, TOP, g) && (owner'[g].Data? && owner'[g].id == id ==> owner'[g].n < TOP)
    {
      assert TookOk(owner, owner', id, g) && DataMapped(owner, id, s, 0, TOP, g);
    }
  }

  /** Unmapping and giving back the pages from `lo` on shrinks the user memory to `lo` pages. */
  lemma RegionShrinks(owner: map<nat, Owner>, id: nat, s: Space, s': Space, np: nat, lo: nat)
    requires Region(owner, id, s, np) && lo <= np && s'.flat == DropRange(s.flat, lo, np)
    ensures Region(Release(owner, id, lo, np), id, s', lo)
  {
    hide FrameOf;
    var owner' := Release(owner, id, lo, np);
    forall n: nat | n < TOP && n in s'.flat
      ensures PageBacked(owner', id, s', n)
    {
      assert PageBacked(owner, id, s, n);
    }
    forall g: nat | g in owner'
      ensures DataMapped(owner', id, s', 0, TOP, g) && (owner'[g].Data? && owner'[g].id == id ==> owner'[g].n < TOP)
    {
      assert DataMapped(owner, id, s, 0, TOP, g);
    }
  }

  lemma RegionBacked(owner: map<nat, Owner>, id: nat, s: Space, np: nat, lo: nat, hi: nat)
    requires Region(owner, id, s, np) && lo <= hi <= TOP
    ensures Backed(owner, id, s, lo, hi)
  {
    forall g: nat | g in owner
      ensures DataMapped(owner, id, s, lo, hi, g)
    {
      assert DataMapped(owner, id, s, 0, TOP, g);
    }
  }

  /** Another address space's user memory is as it was. */
  lemma OtherRegion(ram: seq<Page>, owner: map<nat, Owner>, ram': seq<Page>, owner': map<nat, Owner>, id: nat, k: nat,
                    other: nat, s: Space, np: nat)
    requires Region(owner, other, s, np) && Untouched(ram, owner, ram', owner', id, k) && other != id
    ensures Region(owner', other, s, np)
  {
    hide FrameOf;
    forall n: nat | n < TOP && n in s.flat
      ensures PageBacked(owner', other, s, n)
    {
      assert PageBacked(owner, other, s, n) && Spared(ram, owner, ram', owner', id, k, FrameOf(s.flat[n]));
    }
    forall g: nat | g in owner'
      ensures DataMapped(owner', other, s, 0, TOP, g)
      ensures (owner'[g].Data? && owner'[g].id == other ==> owner'[g].n < TOP)
    {
      assert Spared(ram, owner, ram', owner', id, k, g) && DataMapped(owner, other, s, 0, TOP, g);
    }
  }

  predicate GrewOk(owner: map<nat, Owner>, owner': map<nat, Owner>, id: nat, np: nat, f: nat)
    requires f in owner && f in owner'
  {
    owner'[f] == owner[f] || (owner[f].Free? && Mine(owner'[f], id) && (owner'[f].Data? ==> np <= owner'[f].n))
  }

  /** Nothing but free pages that became table pages of address space `id`, or its data pages from
      `np` on. */
  predicate Grew(owner: map<nat, Owner>, owner': map<nat, Owner>, id: nat, np: nat) {
    owner.Keys == owner'.Keys && forall f: nat | f in owner :: GrewOk(owner, owner', id, np, f)
  }

  lemma GrewTrans(o0: map<nat, Owner>, o1: map<nat, Owner>, o2: map<nat, Owner>, id: nat, np: nat)
    requires Grew(o0, o1, id, np) && Grew(o1, o2, id, np)
    ensures Grew(o0, o2, id, np)
  {
    forall f: nat | f in o0
      ensures GrewOk(o0, o2, id, np, f)
    {
      assert GrewOk(o0, o1, id, np, f) && GrewOk(o1, o2, id, np, f);
    }
  }

  lemma TookGrew(o0: map<nat, Owner>, o1: map<nat, Owner>, id: nat, np: nat)
    requires TookTables(o0, o1, id)
    ensures Grew(o0, o1, id, np)
  {
    forall f: nat | f in o0
      ensures GrewOk(o0, o1, id, np, f)
    {
      assert TookOk(o0, o1, id, f);
    }
  }

  /** Once the data pages from `np` on are given back, only table pages have been taken. */
  lemma GaveBack(o0: map<nat, Owner>, o1: map<nat, Owner>, id: nat, s0: Space, s1: Space, np: nat, hi: nat)
    requires Grew(o0, o1, id, np) && Region(o0, id, s0, np) && Region(o1, id, s1, hi)
    ensures TookTables(o0, Release(o1, id, np, hi), id)
  {
    hide FrameOf;
    forall f: nat | f in o0
      ensures TookOk(o0, Release(o1, id, np, hi), id, f)
    {
      assert GrewOk(o0, o1, id, np, f) && DataMapped(o1, id, s1, 0, TOP, f) && DataMapped(o0, id, s0, 0, TOP, f);
    }
  }

  lemma RegionBound(owner: map<nat, Owner>, id: nat, s: Space, np: nat)
    requires Region(owner, id, s, np)
    ensures np <= TOP && (np < TOP ==> np !in s.flat)
  {
  }

  /** The physical pages of the first `k` virtual pages. */
  function FramesOf(s: Space, k: nat): set<nat>
    requires forall n: nat | n < k :: n in s.flat
  {
    if k == 0 then {} else FramesOf(s, k - 1) + {FrameOf(s.flat[k - 1])}
  }

  lemma {:induction false} FramesCount(owner: map<nat, Owner>, id: nat, s: Space, np: nat, k: nat)
    requires Region(owner, id, s, np) && k <= np
    ensures |FramesOf(s, k)| == k
    ensures forall f | f in FramesOf(s, k) :: f in owner && owner[f].Data? && owner[f].n < k
  {
    hide FrameOf;
    if k > 0 {
      FramesCount(owner, id, s, np, k - 1);
      assert PageBacked(owner, id, s, k - 1);
    }
  }

  lemma {:induction false} SetInRange(fs: set<nat>, lo: nat, hi: nat)
    requires lo <= hi && forall f | f in fs :: lo <= f < hi
    ensures |fs| <= hi - lo
  {
    if lo < hi {
      SetInRange(fs - {hi - 1}, lo, hi - 1);
    } else {
      assert fs == {};
    }
  }

  /** User memory is never larger than physical memory. */
  lemma RegionSmall(owner: map<nat, Owner>, id: nat, s: Space, np: nat, first: nat, limit: nat)
    requires Region(owner, id, s, np) && first <= limit && forall f | f in owner :: first <= f < limit
    ensures np <= limit - first
  {
    FramesCount(owner, id, s, np, np);
    SetInRange(FramesOf(s, np), first, limit);
  }

  lemma UntouchedAt(ram: seq<Page>, owner: map<nat, Owner>, ram': seq<Page>, owner': map<nat, Owner>, id: nat, np: nat,
                    f: nat)
    requires Untouched(ram, owner, ram', owner', id, np) && f in owner
    ensures f in owner' && |ram| == |ram'| && Spared(ram, owner, ram', owner', id, np, f)
  {
  }

  /** Entry `e` has these flags, and its page holds `x`. */
  predicate Loaded(ram: seq<Page>, e: U64, flags: nat, x: Page) {
    FrameOf(e) < |ram| && FlagsOf(e) == flags && ram[FrameOf(e)] == x
  }

  /** `s'` is `s` with the virtual pages from `lo` to `hi` added. */
  ghost predicate Added(s: Space, s': Space, lo: nat, hi: nat) {
    && (forall n: nat | lo <= n < hi :: n in s'.flat)
    && forall n: nat | !(lo <= n < hi) :: (n in s'.flat <==> n in s.flat) && (n in s.flat ==> s'.flat[n] == s.flat[n])
  }

  predicate ZeroAt(ram: seq<Page>, s: Space, n: nat) {
    n in s.flat && Loaded(ram, s.flat[n], 31, AllWords(0))
  }

  /** The virtual pages from `lo` to `hi` are zeroed, readable, writable, executable, and for the
      user. */
  predicate Zeros(ram: seq<Page>, s: Space, lo: nat, hi: nat) {
    forall n: nat | lo <= n < hi :: ZeroAt(ram, s, n)
  }

  lemma AddedStep(s: Space, s1: Space, s': Space, lo: nat, a: nat)
    requires Added(s, s1, lo, a) && lo <= a && a in s'.flat && s'.flat == s1.flat[a := s'.flat[a]]
    ensures Added(s, s', lo, a + 1)
  {
  }

  /** A mapped user page keeps its contents when only later pages are added. */
  lemma PageKept(r1: seq<Page>, o1: map<nat, Owner>, ram: seq<Page>, owner: map<nat, Owner>, id: nat, s: Space,
                 np: nat, k: nat, n: nat)
    requires Region(o1, id, s, np) && n < np && Untouched(r1, o1, ram, owner, id, k) && (n < k)
    ensures n in s.flat && FrameOf(s.flat[n]) in owner
    ensures (FrameOf(s.flat[n]) < |ram| ==> ram[FrameOf(s.flat[n])] == r1[FrameOf(s.flat[n])])
  {
    assert PageBacked(o1, id, s, n);
    assert Spared(r1, o1, ram, owner, id, k, FrameOf(s.flat[n]));
  }

  lemma ZerosStep(r1: seq<Page>, o1: map<nat, Owner>, ram: seq<Page>, owner: map<nat, Owner>, id: nat, s1: Space,
                  s': Space, lo: nat, a: nat)
    requires Zeros(r1, s1, lo, a) && Region(o1, id, s1, a) && Untouched(r1, o1, ram, owner, id, a)
    requires a in s'.flat && s'.flat == s1.flat[a := s'.flat[a]] && Loaded(ram, s'.flat[a], 31, AllWords(0))
    ensures Zeros(ram, s', lo, a + 1)
  {
    hide FrameOf, FlagsOf, Region, Untouched;
    forall n: nat | lo <= n < a + 1
      ensures ZeroAt(ram, s', n)
    {
      if n < a {
        assert ZeroAt(r1, s1, n);
        PageKept(r1, o1, ram, owner, id, s1, a, a, n);
        SameLength(r1, o1, ram, owner, id, a);
      }
    }
  }

  lemma SameLength(r1: seq<Page>, o1: map<nat, Owner>, ram: seq<Page>, owner: map<nat, Owner>, id: nat, np: nat)
    requires Untouched(r1, o1, ram, owner, id, np)
    ensures |r1| == |ram|
  {
  }

  lemma GrewLess(o0: map<nat, Owner>, o1: map<nat, Owner>, id: nat, np: nat, less: nat)
    requires Grew(o0, o1, id, np) && less <= np
    ensures Grew(o0, o1, id, less)
  {
    forall f: nat | f in o0
      ensures GrewOk(o0, o1, id, less, f)
    {
      assert GrewOk(o0, o1, id, np, f);
    }
  }

  lemma AddedKept(s: Space, s1: Space, s': Space, lo: nat, hi: nat)
    requires Added(s, s1, lo, hi) && s'.flat == s1.flat
    ensures Added(s, s', lo, hi)
  {
  }

  /** Page `n` of the child is a copy of page `n` of the parent. */
  predicate CopyAt(ram: seq<Page>, ps: Space, cs: Space, n: nat) {
    && n in ps.flat && FrameOf(ps.flat[n]) < |ram|
    && n in cs.flat && Loaded(ram, cs.flat[n], FlagsOf(ps.flat[n]), ram[FrameOf(ps.flat[n])])
  }

  predicate Copies(ram: seq<Page>, ps: Space, cs: Space, np: nat) {
    forall n: nat | n < np :: CopyAt(ram, ps, cs, n)
  }

  /** A data page of one address space is not touched by work on another. */
  lemma ParentPage(r1: seq<Page>, o1: map<nat, Owner>, ram: seq<Page>, owner: map<nat, Owner>, pid: nat, ps: Space,
                   np: nat, id: nat, k: nat, n: nat)
    requires Region(o1, pid, ps, np) && n < np && pid != id && Untouched(r1, o1, ram, owner, id, k)
    ensures n in ps.flat && (FrameOf(ps.flat[n]) < |ram| ==> ram[FrameOf(ps.flat[n])] == r1[FrameOf(ps.flat[n])])
  {
    assert PageBacked(o1, pid, ps, n);
    assert Spared(r1, o1, ram, owner, id, k, FrameOf(ps.flat[n]));
  }

  lemma CopiesStep(r1: seq<Page>, o1: map<nat, Owner>, ram: seq<Page>, owner: map<nat, Owner>, pid: nat, ps: Space,
                   np: nat, id: nat, c1: Space, cs: Space, a: nat)
    requires Copies(r1, ps, c1, a) && Region(o1, pid, ps, np) && Region(o1, id, c1, a) && pid != id && a < np
    requires Untouched(r1, o1, ram, owner, id, a)
    requires a in ps.flat && FrameOf(ps.flat[a]) < |r1| && a in cs.flat && cs.flat == c1.flat[a := cs.flat[a]]
    requires Loaded(ram, cs.flat[a], FlagsOf(ps.flat[a]), r1[FrameOf(ps.flat[a])])
    ensures Copies(ram, ps, cs, a + 1)
  {
    hide FrameOf, FlagsOf, Region, Untouched;
    SameLength(r1, o1, ram, owner, id, a);
    forall n: nat | n < a + 1
      ensures CopyAt(ram, ps, cs, n)
    {
      ParentPage(r1, o1, ram, owner, pid, ps, np, id, a, n);
      if n < a {
        assert CopyAt(r1, ps, c1, n);
        PageKept(r1, o1, ram, owner, id, c1, a, a, n);
      }
    }
  }

  lemma LeafFlags(e: U64)
    requires IsValid(e) && IsLeaf(e)
    ensures LeafPerm(FlagsOf(e)) && OrV(FlagsOf(e)) == FlagsOf(e)
  {
    var h, q, r := e / 1024, e % 1024 / 2, e % 1024 % 2;
    assert e == 2 * (h * 512 + q) + r;
    Bits(h * 512 + q, r);
    Eights(h * 64, q);
    assert FlagsOf(e) == 2 * q + r;
  }

  /** Dropping what was added. */
  lemma AddedDropped(owner: map<nat, Owner>, id: nat, s: Space, s1: Space, lo: nat, hi: nat)
    requires Region(owner, id, s, lo) && Added(s, s1, lo, hi) && lo <= hi <= TOP
    ensures DropRange(s1.flat, lo, hi) == s.flat
  {
  }

  /** A free page became the data page of virtual page `n`, or went back. */
  lemma TookData(ram: seq<Page>, ram': seq<Page>, owner: map<nat, Owner>, id: nat, np: nat, f: nat, n: nat)
    requires f in owner && owner[f].Free? && np <= n && |ram'| == |ram|
    requires forall g: nat | g < |ram| && g != f :: ram'[g] == ram[g]
    ensures Untouched(ram, owner, ram', owner[f := Data(id, n)], id, np) && Grew(owner, owner[f := Data(id, n)], id, np)
  {
  }

  /** Taking a page and giving it back leaves only the table pages taken in between. */
  lemma TookAndGave(o0: map<nat, Owner>, o2: map<nat, Owner>, id: nat, n: nat, f: nat)
    requires f in o0 && o0[f].Free? && TookTables(o0[f := Data(id, n)], o2, id)
    ensures f in o2 && o2[f] == Data(id, n) && TookTables(o0, o2[f := Free], id)
  {
    var o1 := o0[f := Data(id, n)];
    assert TookOk(o1, o2, id, f);
    forall g: nat | g in o0
      ensures TookOk(o0, o2[f := Free], id, g)
    {
      assert TookOk(o1, o2, id, g);
    }
  }

  lemma ReleaseNothing(owner: map<nat, Owner>, id: nat, lo: nat)
    ensures Release(owner, id, lo, lo) == owner
  {
  }

  lemma DropNothing(flat: map<nat, U64>, lo: nat)
    ensures DropRange(flat, lo, lo) == flat
  {
  }

  lemma DropStep(flat: map<nat, U64>, lo: nat, a: nat)
    requires lo <= a
    ensures DropRange(flat, lo, a + 1) == DropRange(flat, lo, a) - {a}
    ensures a in flat <==> a in DropRange(flat, lo, a)
  {
  }

  /** Freeing the page behind `a` releases one more page of the range. */
  lemma ReleaseStep(owner: map<nat, Owner>, id: nat, s: Space, lo: nat, hi: nat, a: nat)
    requires Backed(owner, id, s, lo, hi) && lo <= a < hi && a in s.flat
    ensures FrameOf(s.flat[a]) in owner
    ensures Release(owner, id, lo, a + 1) == Release(owner, id, lo, a)[FrameOf(s.flat[a]) := Free]
    ensures Release(owner, id, lo, a)[FrameOf(s.flat[a])] == Data(id, a)
  {
    assert PageBacked(owner, id, s, a);
    forall f | f in owner && InRange(owner[f], id, a, a + 1)
      ensures f == FrameOf(s.flat[a])
    {
      assert DataMapped(owner, id, s, lo, hi, f);
    }
  }

  /** Having released the pages before `a`, the page behind `a` is still there. */
  lemma StillBacked(owner: map<nat, Owner>, id: nat, s: Space, s': Space, lo: nat, hi: nat, a: nat)
    requires Backed(owner, id, s, lo, hi) && lo <= a < hi && a in s.flat && s'.flat == DropRange(s.flat, lo, a)
    ensures a in s'.flat && s'.flat[a] == s.flat[a] && PageBacked(Release(owner, id, lo, a), id, s', a)
    ensures Release(owner, id, lo, a + 1) == Release(owner, id, lo, a)[FrameOf(s'.flat[a]) := Free]
  {
    ReleaseStep(owner, id, s, lo, hi, a);
  }

  lemma NotMapped(ram: seq<Page>, owner: map<nat, Owner>, id: nat, s: Space, a: nat)
    requires SpaceOk(ram, owner, id, s) && (a >= MAXVPN || Up(a, 1) !in s.node)
    ensures a !in s.flat
  {
    UpOne(a);
    assert a in s.flat ==> FlatOk(s, a);
  }

  lemma LeafIsNotLink(e: U64)
    requires IsLeaf(e)
    ensures FlagsOf(e) != PTE_V
  {
    var h, q, r := e / 1024, e % 1024 / 2, e % 1024 % 2;
    assert e == 2 * (h * 512 + q) + r;
    Bits(h * 512 + q, r);
    Eights(h * 64, q);
  }

  /** Giving back data pages from `np` on touches nothing else. */
  lemma FreedData(ram: seq<Page>, ram': seq<Page>, owner: map<nat, Owner>, id: nat, np: nat, f: nat, n: nat)
    requires f in owner && owner[f] == Data(id, n) && np <= n && |ram'| == |ram|
    requires forall g: nat | g < |ram| && g != f :: ram'[g] == ram[g]
    ensures Untouched(ram, owner, ram', owner[f := Free], id, np)
  {
  }

  /** No page belongs to address space `id`. */
  function Disowned(owner: map<nat, Owner>, id: nat): map<nat, Owner> {
    map f | f in owner :: if Mine(owner[f], id) then Free else owner[f]
  }

  lemma BareTop(ram: seq<Page>, owner: map<nat, Owner>, id: nat, s: Space, s1: Space, np: nat)
    requires SpaceOk(ram, owner, id, s1) && s1.flat == DropRange(s.flat, 0, np)
    requires forall n: nat | n in s.flat :: n < np || TOP <= n
    requires np <= TOP
    ensures Bare(s1, ROOT) <==> forall n: nat | n in s.flat :: n < TOP
  {
    hide Word, Expect, Anc;
    forall n: nat | n in s1.flat
      ensures Under(Place(0, n), ROOT)
    {
      assert FlatOk(s1, n);
      UnderRoot(owner, id, s1, Parent(Place(0, n)));
      UnderPage(n);
    }
    assert forall n: nat | n in s.flat && TOP <= n :: n in s1.flat;
  }

  lemma UnderPage(n: nat)
    requires Under(Parent(Place(0, n)), ROOT)
    ensures Under(Place(0, n), ROOT)
  {
  }

  lemma AllGone(owner: map<nat, Owner>, o1: map<nat, Owner>, id: nat, s: Space, np: nat)
    requires Region(owner, id, s, np) && o1 == Release(owner, id, 0, np)
    requires forall f: nat | f in o1 && o1[f].Table? && o1[f].id == id :: InTree(o1[f], id, ROOT)
    ensures WithoutTree(o1, id, ROOT) == Disowned(owner, id)
  {
    hide Under, FrameOf;
    forall f: nat | f in owner
      ensures WithoutTree(o1, id, ROOT)[f] == Disowned(owner, id)[f]
    {
      assert DataMapped(owner, id, s, 0, TOP, f);
    }
  }

  lemma TreeUntouched(r1: seq<Page>, o1: map<nat, Owner>, ram: seq<Page>, owner: map<nat, Owner>, id: nat)
    requires |ram| == |r1| && owner == WithoutTree(o1, id, ROOT)
    requires forall f: nat | f in owner && !InTree(o1[f], id, ROOT) && f < |ram| :: ram[f] == r1[f]
    ensures Untouched(r1, o1, ram, owner, id, 0)
  {
    hide Under;
    forall f: nat | f in o1
      ensures Spared(r1, o1, ram, owner, id, 0, f)
    {
    }
  }

  /** No page belongs to address space `id` yet. */
  predicate Unheard(owner: map<nat, Owner>, id: nat) {
    forall f | f in owner :: !Mine(owner[f], id)
  }

  lemma EmptySpace(ram: seq<Page>, o0: map<nat, Owner>, owner: map<nat, Owner>, id: nat, s: Space, root: nat)
    requires InRam(ram, owner) && Unheard(o0, id) && root in o0 && owner == o0[root := Table(id, ROOT)]
    requires root < |ram| && ram[root] == AllWords(0)
    requires s == Space(map[ROOT := root], map[])
    ensures SpaceOk(ram, owner, id, s) && Region(owner, id, s, 0)
  {
    forall c: Place
      ensures WordOk(ram, s, c)
    {
      if Parent(c) == ROOT {
        ZeroPage(ram, root, Lo(c.key));
        assert c != ROOT;
      }
    }
  }

  /** What maps or unmaps above the user memory, and takes only table pages, leaves it alone. */
  lemma RegionHigh(owner: map<nat, Owner>, owner': map<nat, Owner>, id: nat, s: Space, s': Space, np: nat)
    requires Region(owner, id, s, np) && TookTables(owner, owner', id)
    requires forall n: nat | n < TOP :: (n in s'.flat <==> n in s.flat) && (n in s.flat ==> s'.flat[n] == s.flat[n])
    ensures Region(owner', id, s', np)
  {
    hide FrameOf;
    forall n: nat | n < TOP && n in s'.flat
      ensures PageBacked(owner', id, s', n)
    {
      assert PageBacked(owner, id, s, n) && TookOk(owner, owner', id, FrameOf(s.flat[n]));
    }
    forall g: nat | g in owner'
      ensures DataMapped(owner', id, s', 0, TOP, g) && (owner'[g].Data? && owner'[g].id == id ==> owner'[g].n < TOP)
    {
      assert TookOk(owner, owner', id, g) && DataMapped(owner, id, s, 0, TOP, g);
    }
  }

  lemma NoneTaken(owner: map<nat, Owner>, id: nat)
    ensures TookTables(owner, owner, id)
  {
  }

  lemma DropHigh(flat: map<nat, U64>, n: nat)
    requires n >= TOP
    ensures var r := DropRange(flat, n, n + 1);
            && n !in r && (forall m: nat | m != n :: (m in r <==> m in flat) && (m in flat ==> r[m] == flat[m]))
  {
  }

  lemma OnlyUser(ram: seq<Page>, owner: map<nat, Owner>, id: nat, s: Space, np: nat)
    requires SpaceOk(ram, owner, id, s) && Region(owner, id, s, np) && TOP !in s.flat && TOP + 1 !in s.flat
    ensures forall n: nat | n in s.flat :: n < TOP
  {
    forall n: nat | n in s.flat
      ensures n < TOP
    {
      assert FlatOk(s, n);
    }
  }

  /** Giving back what was taken restores the ownership there was. */
  lemma DisownedAgain(o0: map<nat, Owner>, owner: map<nat, Owner>, id: nat)
    requires Unheard(o0, id) && TookTables(o0, owner, id)
    ensures Disowned(owner, id) == o0
  {
    forall f | f in o0
      ensures Disowned(owner, id)[f] == o0[f]
    {
      assert TookOk(o0, owner, id, f);
    }
  }

  /** A page that is free or the kernel's, before and after, matters to no user memory. */
  lemma RegionKernel(owner: map<nat, Owner>, owner': map<nat, Owner>, id: nat, s: Space, np: nat, f: nat)
    requires Region(owner, id, s, np) && f in owner && (owner[f].Free? || owner[f].Kernel?)
    requires owner'.Keys == owner.Keys && (owner'[f].Free? || owner'[f].Kernel?)
    requires forall g: nat | g in owner && g != f :: owner'[g] == owner[g]
    ensures Region(owner', id, s, np)
  {
    hide FrameOf;
    forall n: nat | n < TOP && n in s.flat
      ensures PageBacked(owner', id, s, n)
    {
      assert PageBacked(owner, id, s, n);
    }
    forall g: nat | g in owner'
      ensures DataMapped(owner', id, s, 0, TOP, g)
    {
      assert DataMapped(owner, id, s, 0, TOP, g);
    }
  }

  lemma UnheardKernel(owner: map<nat, Owner>, id: nat, f: nat)
    requires Unheard(owner, id)
    ensures Unheard(owner[f := Kernel], id)
  {
  }

  /** An address space made and freed again leaves the ownership as it was. */
  lemma AsBefore(r1: seq<Page>, o1: map<nat, Owner>, ram: seq<Page>, o3: map<nat, Owner>, owner: map<nat, Owner>,
                 id: nat)
    requires Unheard(o1, id) && Untouched(r1, o1, ram, owner, id, 0) && owner == Disowned(o3, id)
    ensures owner == o1
  {
    forall f | f in o1
      ensures owner[f] == o1[f]
    {
      assert Spared(r1, o1, ram, owner, id, 0, f);
    }
  }

  // ----- what other processes see -----

  /** A page of the kernel, or of an address space not among `ids`. */
  predicate Theirs(o: Owner, ids: set<nat>) {
    o.Kernel? || ((o.Table? || o.Data?) && o.id !in ids)
  }

  predicate KeptAt(ram: seq<Page>, owner: map<nat, Owner>, ram': seq<Page>, owner': map<nat, Owner>,
                   ids: set<nat>, ks: set<nat>, f: nat)
    requires f in owner && f in owner' && |ram| == |ram'|
  {
    if f in ks then (owner[f].Free? || owner[f].Kernel?) && (owner'[f].Free? || owner'[f].Kernel?)
    else Theirs(owner[f], ids) || Theirs(owner'[f], ids) ==>
      owner'[f] == owner[f] && (f < |ram| ==> ram'[f] == ram[f])
  }

  /** Only free pages, pages of the address spaces `ids`, and the kernel pages `ks` have changed hands
      or contents. */
  predicate OthersKept(ram: seq<Page>, owner: map<nat, Owner>, ram': seq<Page>, owner': map<nat, Owner>,
                       ids: set<nat>, ks: set<nat>) {
    && |ram| == |ram'| && owner.Keys == owner'.Keys
    && forall f: nat | f in owner :: KeptAt(ram, owner, ram', owner', ids, ks, f)
  }

  lemma KeptSpace(ram: seq<Page>, owner: map<nat, Owner>, ram': seq<Page>, owner': map<nat, Owner>,
                  ids: set<nat>, ks: set<nat>, other: nat, s: Space)
    requires SpaceOk(ram, owner, other, s) && OthersKept(ram, owner, ram', owner', ids, ks) && other !in ids
    ensures SpaceOk(ram', owner', other, s)
  {
    hide Hi, Lo, Link;
    forall p | p in s.node
      ensures NodeOk(owner', other, s, p) && ram'[s.node[p]] == ram[s.node[p]]
    {
      assert NodeOk(owner, other, s, p) && KeptAt(ram, owner, ram', owner', ids, ks, s.node[p]);
    }
    forall f: nat | f in owner'
      ensures NoStray(owner', other, s, f)
    {
      assert NoStray(owner, other, s, f) && KeptAt(ram, owner, ram', owner', ids, ks, f);
    }
    forall c: Place
      ensures WordOk(ram', s, c)
    {
      assert WordOk(ram, s, c);
    }
  }

  lemma KeptRegion(ram: seq<Page>, owner: map<nat, Owner>, ram': seq<Page>, owner': map<nat, Owner>,
                   ids: set<nat>, ks: set<nat>, other: nat, s: Space, np: nat)
    requires Region(owner, other, s, np) && OthersKept(ram, owner, ram', owner', ids, ks) && other !in ids
    ensures Region(owner', other, s, np)
  {
    hide FrameOf;
    forall n: nat | n < TOP && n in s.flat
      ensures PageBacked(owner', other, s, n)
    {
      assert PageBacked(owner, other, s, n) && KeptAt(ram, owner, ram', owner', ids, ks, FrameOf(s.flat[n]));
    }
    forall g: nat | g in owner'
      ensures DataMapped(owner', other, s, 0, TOP, g)
      ensures owner'[g].Data? && owner'[g].id == other ==> owner'[g].n < TOP
    {
      assert KeptAt(ram, owner, ram', owner', ids, ks, g) && DataMapped(owner, other, s, 0, TOP, g);
    }
  }

  lemma KeptUntouched(r0: seq<Page>, o0: map<nat, Owner>, r1: seq<Page>, o1: map<nat, Owner>, id: nat, np: nat)
    requires Untouched(r0, o0, r1, o1, id, np)
    ensures OthersKept(r0, o0, r1, o1, {id}, {})
  {
    forall f: nat | f in o0
      ensures KeptAt(r0, o0, r1, o1, {id}, {}, f)
    {
      assert Spared(r0, o0, r1, o1, id, np, f);
    }
  }

  lemma KeptTrans(r0: seq<Page>, o0: map<nat, Owner>, r1: seq<Page>, o1: map<nat, Owner>,
                  r2: seq<Page>, o2: map<nat, Owner>, ids: set<nat>, ks: set<nat>)
    requires OthersKept(r0, o0, r1, o1, ids, ks) && OthersKept(r1, o1, r2, o2, ids, ks)
    ensures OthersKept(r0, o0, r2, o2, ids, ks)
  {
    forall f: nat | f in o0
      ensures KeptAt(r0, o0, r2, o2, ids, ks, f)
    {
      assert KeptAt(r0, o0, r1, o1, ids, ks, f) && KeptAt(r1, o1, r2, o2, ids, ks, f);
    }
  }

  /** First one address space, then another. */
  lemma KeptBoth(r0: seq<Page>, o0: map<nat, Owner>, r1: seq<Page>, o1: map<nat, Owner>,
                 r2: seq<Page>, o2: map<nat, Owner>, id: nat, id': nat)
    requires Untouched(r0, o0, r1, o1, id, 0) && Untouched(r1, o1, r2, o2, id', 0)
    ensures OthersKept(r0, o0, r2, o2, {id, id'}, {})
  {
    forall f: nat | f in o0
      ensures KeptAt(r0, o0, r2, o2, {id, id'}, {}, f)
    {
      assert Spared(r0, o0, r1, o1, id, 0, f) && Spared(r1, o1, r2, o2, id', 0, f);
    }
  }

  /** A kernel page `k` is taken, and then address space `id` changes. */
  lemma KeptTaking(r0: seq<Page>, o0: map<nat, Owner>, r1: seq<Page>, r2: seq<Page>, o2: map<nat, Owner>, id: nat,
                   k: nat)
    requires k in o0 && k < |r0| && o0[k].Free? && |r1| == |r0|
    requires (forall g: nat | g < |r0| && g != k :: r1[g] == r0[g])
    requires Untouched(r1, o0[k := Kernel], r2, o2, id, 0)
    ensures OthersKept(r0, o0, r2, o2, {id}, {k}) && o2[k] == Kernel
  {
    forall f: nat | f in o0
      ensures KeptAt(r0, o0, r2, o2, {id}, {k}, f)
    {
      assert Spared(r1, o0[k := Kernel], r2, o2, id, 0, f);
    }
    assert Spared(r1, o0[k := Kernel], r2, o2, id, 0, k);
  }

  /** A kernel page `k` is given back, and then address space `id`. */
  lemma KeptGiving(r0: seq<Page>, o0: map<nat, Owner>, r1: seq<Page>, r2: seq<Page>, o2: map<nat, Owner>, id: nat,
                   k: nat)
    requires k in o0 && k < |r0| && o0[k].Kernel? && |r1| == |r0|
    requires (forall g: nat | g < |r0| && g != k :: r1[g] == r0[g])
    requires Untouched(r1, o0[k := Free], r2, o2, id, 0) && o2 == Disowned(o0[k := Free], id)
    ensures OthersKept(r0, o0, r2, o2, {id}, {k})
  {
    forall f: nat | f in o0
      ensures KeptAt(r0, o0, r2, o2, {id}, {k}, f)
    {
      assert Spared(r1, o0[k := Free], r2, o2, id, 0, f);
    }
  }

  lemma NothingGiven(r0: seq<Page>, o0: map<nat, Owner>, id: nat, k: nat)
    requires k in o0 && k < |r0| && o0[k].Free?
    ensures var x := AllWords(0x0101_0101_0101_0101);
            OthersKept(r0, o0[k := Kernel], r0[k := x], o0, {id}, {k})
  {
    var x := AllWords(0x0101_0101_0101_0101);
    forall f: nat | f in o0
      ensures KeptAt(r0, o0[k := Kernel], r0[k := x], o0, {id}, {k}, f)
    {
    }
  }

  /** Address space `id` changes further. */
  lemma KeptMore(r0: seq<Page>, o0: map<nat, Owner>, r1: seq<Page>, o1: map<nat, Owner>,
                 r2: seq<Page>, o2: map<nat, Owner>, id: nat, k: nat)
    requires OthersKept(r0, o0, r1, o1, {id}, {k}) && Untouched(r1, o1, r2, o2, id, 0) && k in o1 && o1[k].Kernel?
    ensures OthersKept(r0, o0, r2, o2, {id}, {k})
  {
    forall f: nat | f in o0
      ensures KeptAt(r0, o0, r2, o2, {id}, {k}, f)
    {
      assert KeptAt(r0, o0, r1, o1, {id}, {k}, f) && Spared(r1, o1, r2, o2, id, 0, f);
    }
  }

  /** A page that is free before and after is nobody's. */
  lemma KeptFree(r0: seq<Page>, o0: map<nat, Owner>, r1: seq<Page>, id: nat, k: nat)
    requires OthersKept(r0, o0, r1, o0, {id}, {k}) && k in o0 && o0[k].Free?
    ensures OthersKept(r0, o0, r1, o0, {id}, {})
  {
    forall f: nat | f in o0
      ensures KeptAt(r0, o0, r1, o0, {id}, {}, f)
    {
      assert KeptAt(r0, o0, r1, o0, {id}, {k}, f);
    }
  }

  /** The address space taken with kernel page `k` is gone again, and so is the page. */
  lemma KeptGone(r0: seq<Page>, o0: map<nat, Owner>, r1: seq<Page>, o1: map<nat, Owner>, id: nat, k: nat)
    requires OthersKept(r0, o0, r1, o1, {id}, {k}) && Unheard(o0, id) && k in o0 && o0[k].Free?
    ensures Disowned(o1[k := Free], id) == o0
  {
    forall f | f in o0
      ensures Disowned(o1[k := Free], id)[f] == o0[f]
    {
      assert KeptAt(r0, o0, r1, o1, {id}, {k}, f);
    }
  }

  predicate SameAt(s: Space, s': Space, n: nat) {
    (n in s'.flat <==> n in s.flat) && (n in s.flat ==> s'.flat[n] == s.flat[n])
  }

  /** The trap frame and the trampoline are mapped as they were. */
  predicate SameHigh(s: Space, s': Space) {
    SameAt(s, s', TOP) && SameAt(s, s', TOP + 1)
  }

  /** The trap frame `tf` and the trampoline `tr` are mapped, for the kernel only. */
  predicate Trapped(s: Space, tf: nat, tr: nat) {
    && tf < MAXFRAME && tr < MAXFRAME && TOP in s.flat && TOP + 1 in s.flat
    && s.flat[TOP] == Pte(tf, 7) && s.flat[TOP + 1] == Pte(tr, 11)
  }

  lemma PgUpTwice(sz: nat)
    ensures PgUp(PgUp(sz) * PGSIZE) == PgUp(sz) && PgUp(PgUp(sz) * PGSIZE + 2 * PGSIZE) == PgUp(sz) + 2
  {
  }

  lemma AddedHigh(s: Space, s': Space, lo: nat, hi: nat)
    requires Added(s, s', lo, hi) && hi <= TOP
    ensures SameHigh(s, s')
  {
  }

  lemma DroppedHigh(s: Space, s': Space, lo: nat, hi: nat)
    requires s'.flat == DropRange(s.flat, lo, hi) && hi <= TOP
    ensures SameHigh(s, s')
  {
  }

  lemma ZeroEntry()
    ensures !IsValid(0) && !IsUser(0)
  {
    Bits(0, 0);
  }

  predicate ImageAt(ram: seq<Page>, s: Space, x: Page, n: nat) {
    n in s.flat && IsUser(s.flat[n]) && FrameOf(s.flat[n]) < |ram| && ram[FrameOf(s.flat[n])] == x
  }

  /** The first pages of the user memory hold `img`, and the user may use them. */
  predicate Shows(ram: seq<Page>, s: Space, img: seq<Page>) {
    forall n: nat | n < |img| :: ImageAt(ram, s, img[n], n)
  }

  /** Page `n` of the user memory gets the contents `x`. */
  lemma ShowsWritten(ram: seq<Page>, owner: map<nat, Owner>, id: nat, s: Space, np: nat, img: seq<Page>, n: nat,
                     x: Page)
    requires Shows(ram, s, img) && Region(owner, id, s, np) && n < |img| <= np
    ensures n in s.flat && FrameOf(s.flat[n]) < |ram| && FrameOf(s.flat[n]) in owner
    ensures ram[FrameOf(s.flat[n])] == img[n]
    ensures owner[FrameOf(s.flat[n])] == Data(id, n) && Shows(ram[FrameOf(s.flat[n]) := x], s, img[n := x])
  {
    hide FrameOf, IsUser;
    assert ImageAt(ram, s, img[n], n) && PageBacked(owner, id, s, n);
    var ram', img' := ram[FrameOf(s.flat[n]) := x], img[n := x];
    forall m: nat | m < |img'|
      ensures ImageAt(ram', s, img'[m], m)
    {
      assert ImageAt(ram, s, img[m], m) && PageBacked(owner, id, s, m);
    }
  }

  /** The contents stay when only pages from `k` on, or another address space, change. */
  lemma ShowsKept(r1: seq<Page>, o1: map<nat, Owner>, ram: seq<Page>, owner: map<nat, Owner>, who: nat, k: nat, id: nat,
                  s: Space, s': Space, np: nat, img: seq<Page>)
    requires Shows(r1, s, img) && Region(o1, id, s, np) && |img| <= np && Untouched(r1, o1, ram, owner, who, k)
    requires who != id || |img| <= k
    requires forall n: nat | n < |img| :: SameAt(s, s', n)
    ensures Shows(ram, s', img)
  {
    hide FrameOf, IsUser;
    forall n: nat | n < |img|
      ensures ImageAt(ram, s', img[n], n)
    {
      assert ImageAt(r1, s, img[n], n) && PageBacked(o1, id, s, n) && SameAt(s, s', n);
      assert Spared(r1, o1, ram, owner, who, k, FrameOf(s.flat[n]));
    }
  }

  lemma AddedSame(s: Space, s': Space, lo: nat, hi: nat)
    requires Added(s, s', lo, hi)
    ensures forall n: nat | n < lo :: SameAt(s, s', n)
  {
  }

  /** Zeroed pages join the image. */
  lemma ShowsGrown(ram: seq<Page>, s: Space, img: seq<Page>, np: nat)
    requires Shows(ram, s, img) && (|img| < np ==> Zeros(ram, s, |img|, np))
    ensures Shows(ram, s, Image.Grown(img, np))
  {
    var img' := Image.Grown(img, np);
    forall n: nat | n < |img'|
      ensures ImageAt(ram, s, img'[n], n)
    {
      if n < |img| {
        assert ImageAt(ram, s, img[n], n);
      } else {
        assert ZeroAt(ram, s, n);
        UserFlags(s.flat[n]);
      }
    }
  }

  lemma ShowsNothing(ram: seq<Page>, s: Space)
    ensures Shows(ram, s, [])
  {
  }

  lemma ShowsPrefix(ram: seq<Page>, s: Space, img: seq<Page>, np: nat)
    requires Shows(ram, s, Image.Grown(img, np)) && |img| <= np
    ensures Shows(ram, s, img)
  {
    forall n: nat | n < |img|
      ensures ImageAt(ram, s, img[n], n)
    {
      assert ImageAt(ram, s, Image.Grown(img, np)[n], n);
    }
  }

  /** The trap frame and the trampoline are not for the user. */
  predicate HighHidden(s: Space) {
    (TOP in s.flat ==> !IsUser(s.flat[TOP])) && (TOP + 1 in s.flat ==> !IsUser(s.flat[TOP + 1]))
  }

  /** A page is mapped for the user exactly when it belongs to the image. */
  lemma MappedUser(ram: seq<Page>, owner: map<nat, Owner>, id: nat, s: Space, img: seq<Page>, n: nat, f: nat)
    requires SpaceOk(ram, owner, id, s) && Region(owner, id, s, |img|) && Shows(ram, s, img) && HighHidden(s)
    requires f == if n in s.flat && IsUser(s.flat[n]) then FrameOf(s.flat[n]) else 0
    requires 0 !in owner
    ensures f != 0 <==> n < |img|
    ensures n < |img| ==> n in s.flat && f == FrameOf(s.flat[n]) && f < |ram|
  {
    hide FrameOf, IsUser;
    if n < |img| {
      assert ImageAt(ram, s, img[n], n) && PageBacked(owner, id, s, n);
    } else if n >= MAXVPN {
      NotMapped(ram, owner, id, s, n);
    }
  }

  lemma TrapHidden(s: Space, tf: nat, tr: nat)
    requires Trapped(s, tf, tr) && tf < MAXFRAME && tr < MAXFRAME
    ensures HighHidden(s)
  {
    hide Pte, IsUser;
    KernelPte(tf, 7);
    KernelPte(tr, 11);
  }

  lemma KernelPte(f: nat, flags: nat)
    requires f < MAXFRAME && flags < 16
    ensures !IsUser(Pte(f, flags))
  {
    var e := Pte(f, flags);
    assert e == 16 * (64 * f) + flags;
    assert e / 16 == 64 * f;
  }

  lemma PieceLength(data: seq<Words.Byte>, sz: nat, m: nat, n: nat)
    requires m * PGSIZE < sz && n == if sz - m * PGSIZE < PGSIZE then sz - m * PGSIZE else PGSIZE
    ensures |Image.Piece(data, sz, m)| == n <==> m * PGSIZE + n <= |data|
  {
  }

  /** A data page of the address space gets new contents. */
  lemma DataWritten(r1: seq<Page>, ram: seq<Page>, owner: map<nat, Owner>, id: nat, n: nat, f: nat)
    requires f in owner && owner[f] == Data(id, n) && |ram| == |r1|
    requires forall g: nat | g < |ram| && g != f :: ram[g] == r1[g]
    ensures Untouched(r1, owner, ram, owner, id, 0)
  {
  }

  lemma HighSame(s: Space)
    ensures SameHigh(s, s)
  {
  }

  lemma HighTwice(s: Space, s1: Space, s2: Space)
    requires SameHigh(s, s1) && SameHigh(s1, s2)
    ensures SameHigh(s, s2) && (TOP in s1.flat ==> TOP in s2.flat) && (TOP + 1 in s1.flat ==> TOP + 1 in s2.flat)
    ensures HighHidden(s1) ==> HighHidden(s2)
  {
  }

  lemma OneMore(segs: seq<Image.Segment>, i: nat)
    requires i < |segs| && Image.AllFine(segs[..i]) && Image.Fine(segs[i])
    ensures Image.AllFine(segs[..i + 1])
    ensures Image.SizeOf(segs[..i + 1]) == Image.Max(Image.SizeOf(segs[..i]), segs[i].vaddr + segs[i].memsz)
    ensures Image.Program(segs[..i + 1]) == Image.Placed(Image.Program(segs[..i]), segs[i])
    ensures Image.Loads(segs[..i]) && Image.SizeOf(segs[..i + 1]) > 0 ==> Image.Loads(segs[..i + 1])
  {
    assert segs[..i + 1][..i] == segs[..i];
  }

  /** The pages that `exec` takes: those of an address space with the program, the guard page and the stack. */
  function ExecCost(segs: seq<Image.Segment>): nat {
    SpaceCost(PgUp(Image.SizeOf(segs)) + 2)
  }

  lemma ExecHigh(segs: seq<Image.Segment>)
    ensures |HIGH| <= ExecCost(segs)
  {
  }

  lemma ExecShort(segs: seq<Image.Segment>, free0: nat, s0: Space)
    requires s0.node.Keys == HIGH
    ensures TooFew(free0, s0, 0, PgUp(Image.SizeOf(segs))) ==> free0 + |HIGH| < ExecCost(segs)
  {
    var n := PgUp(Image.SizeOf(segs));
    FirstToll(n + 2);
    TollSplit(HIGH, 0, n, n + 2);
  }

  /** What the program took, and whether there is enough for the stack. */
  lemma ExecPaid(segs: seq<Image.Segment>, free0: nat, free1: nat, s0: Space, s1: Space)
    requires s0.node.Keys == HIGH && Paid(free0, free1, s0, s1, 0, PgUp(Image.SizeOf(segs)))
    requires PgUp(Image.SizeOf(segs)) <= 0x10_0000
    ensures TooFew(free1, s1, PgUp(Image.SizeOf(segs)), PgUp(Image.SizeOf(segs)) + 2) <==>
              free0 + |HIGH| < ExecCost(segs)
  {
    var n := PgUp(Image.SizeOf(segs));
    FirstToll(n + 2);
    TollSplit(HIGH, 0, n, n + 2);
  }

  /** The size that the first segments make, in a program that loads. */
  lemma SizeGrows(segs: seq<Image.Segment>, i: nat)
    requires i < |segs| && Image.Loads(segs)
    ensures Image.Fine(segs[i]) && Image.SizeOf(segs[..i + 1]) > 0
    ensures Image.SizeOf(segs[..i + 1]) == Image.Max(Image.SizeOf(segs[..i]), segs[i].vaddr + segs[i].memsz)
    ensures PgUp(Image.SizeOf(segs[..i + 1])) <= PgUp(Image.SizeOf(segs))
  {
    assert segs[..i + 1][..i] == segs[..i];
    Image.LoadsAt(segs, i);
    Image.SizeMono(segs, i + 1);
  }

  /** The memory for a segment, once it is there, covers the segment, and is small enough for 32 bits. */
  lemma SegmentMapped(seg: Image.Segment, sz: nat, sz': nat, np: nat, np': nat, most: nat)
    requires seg.filesz <= seg.memsz && sz' == Image.Max(sz, seg.vaddr + seg.memsz) && np == PgUp(sz)
    requires np' == (if PgUp(seg.vaddr + seg.memsz) < np then np else PgUp(seg.vaddr + seg.memsz))
    requires PgUp(sz') <= most < 0x10_0000
    ensures np' == PgUp(sz') && seg.filesz + PGSIZE <= 0x1_0000_0000 && seg.filesz % 0x1_0000_0000 == seg.filesz
    ensures seg.vaddr + seg.filesz <= np' * PGSIZE
  {
    assert sz' <= PgUp(sz') * PGSIZE;
  }

  lemma UserFlags(e: U64)
    requires FlagsOf(e) == 31
    ensures IsUser(e)
  {
    var q := e / 1024;
    assert e == 16 * (64 * q + 1) + 15;
  }

  lemma RegionLast(owner: map<nat, Owner>, id: nat, s: Space, np: nat)
    requires Region(owner, id, s, np) && 2 <= np
    ensures np - 2 < TOP && np - 2 in s.flat
  {
  }

  lemma DisownedUnheard(owner: map<nat, Owner>, id: nat)
    ensures Unheard(Disowned(owner, id), id)
  {
  }

  /** Clearing the user bit of an entry. */
  lemma ClearedUser(e: U64)
    requires LeafEntry(e) && e != 0 && IsUser(e)
    ensures e - PTE_U > 0 && LeafEntry(e - PTE_U) && FrameOf(e - PTE_U) == FrameOf(e) && !IsUser(e - PTE_U)
  {
    var h, fl := e / 1024, e % 1024;
    var u, q, r := fl / 32, fl % 16 / 2, fl % 2;
    UserBit(e);
    assert e == 1024 * h + 32 * u + 16 + 2 * q + r;
    Bits(512 * h + 16 * u + 8 + q, r);
    Bits(512 * h + 16 * u + q, r);
    Eights(64 * h + 2 * u + 1, q);
    Eights(64 * h + 2 * u, q);
    Low(64 * h + 2 * u, 2 * q + r);
  }

  lemma UserBit(e: U64)
    requires IsUser(e)
    ensures e % 1024 % 32 == 16 + e % 1024 % 16 && e % 1024 % 2 == e % 1024 % 16 % 2
  {
    var fl := e % 1024;
    assert e / 16 == 64 * (e / 1024) + fl / 16;
    assert e / 16 % 2 == fl / 16 % 2;
    assert fl == 16 * (fl / 16) + fl % 16;
  }

  lemma Low(x: nat, q: nat)
    requires q < 16
    ensures (16 * x + q) / 16 == x
  {
  }

  /** Changing the flags of user pages leaves the user memory what it is. */
  lemma RegionFlags(owner: map<nat, Owner>, id: nat, s: Space, s': Space, np: nat, n: nat, e: U64)
    requires Region(owner, id, s, np) && n in s.flat && FrameOf(e) == FrameOf(s.flat[n]) && s'.flat == s.flat[n := e]
    ensures Region(owner, id, s', np)
  {
    forall m: nat | m < TOP && m in s'.flat
      ensures PageBacked(owner, id, s', m)
    {
      assert PageBacked(owner, id, s, m);
    }
    forall g: nat | g in owner
      ensures DataMapped(owner, id, s', 0, TOP, g)
    {
      assert DataMapped(owner, id, s, 0, TOP, g);
    }
  }

  lemma NoneBare(s: Space, p: Place)
    requires p.level >= 1
    ensures BareKids(s, p, 0)
  {
  }

  lemma KidsGrow(o0: map<nat, Owner>, id: nat, p: Place, i: nat)
    requires 1 <= p.level && i < 512
    ensures forall f: nat | f in o0 && !InKids(o0[f], id, p, i + 1) :: !InKids(o0[f], id, p, i)
  {
  }

  /** Freeing one more subtree spares what is not below the first `i + 1` entries. */
  lemma KidsSpared(r0: seq<Page>, o0: map<nat, Owner>, r1: seq<Page>, o1: map<nat, Owner>, ram: seq<Page>, id: nat,
                   p: Place, i: nat, t: nat)
    requires 1 <= p.level && i < 512 && o1 == WithoutKids(o0, id, p, i) && |r0| == |r1| == |ram| && InRam(r0, o0)
    requires t in o0 && o0[t] == Table(id, p)
    requires forall f: nat | f in o0 && !InKids(o0[f], id, p, i) && f != t :: r1[f] == r0[f]
    requires forall f: nat | f in o1 && !InTree(o1[f], id, ChildOf(p, i)) :: ram[f] == r1[f]
    ensures forall f: nat | f in o0 && !InKids(o0[f], id, p, i + 1) && f != t :: ram[f] == r0[f]
    ensures ram[t] == r1[t]
  {
    hide InKids, InTree, ChildOf;
    forall f: nat | f in o0 && !InKids(o0[f], id, p, i + 1)
      ensures !InKids(o0[f], id, p, i) && !InTree(o1[f], id, ChildOf(p, i))
    {
      KidsStep(o0[f], id, p, i);
    }
    KidsStep(o0[t], id, p, i);
  }

  lemma TreeOwner(ram: seq<Page>, owner: map<nat, Owner>, id: nat, s: Space, p: Place)
    requires SubOk(ram, owner, id, s, p)
    ensures s.node[p] in owner && owner[s.node[p]] == Table(id, p)
    ensures forall g: nat | g in owner && owner[g] == Table(id, p) :: g == s.node[p]
  {
    UnderSelf(p);
    assert SubNode(owner, id, s, p, p);
    forall g: nat | g in owner && owner[g] == Table(id, p)
      ensures g == s.node[p]
    {
      assert SubStray(owner, id, s, p, g);
    }
  }

  lemma StillTable(owner: map<nat, Owner>, id: nat, p: Place, t: nat)
    requires t in owner && owner[t] == Table(id, p)
    ensures WithoutKids(owner, id, p, 512)[t] == Table(id, p)
  {
  }

  lemma TreeOutside(owner: map<nat, Owner>, id: nat, p: Place, t: nat)
    requires t in owner && owner[t] == Table(id, p) && 1 <= p.level
    requires WithoutTree(owner, id, p) == WithoutKids(owner, id, p, 512)[t := Free]
    ensures forall f: nat | f in owner && !InTree(owner[f], id, p) :: !InKids(owner[f], id, p, 512) && f != t
  {
    UnderSelf(p);
    forall f: nat | f in owner && !InTree(owner[f], id, p)
      ensures !InKids(owner[f], id, p, 512)
    {
      assert WithoutTree(owner, id, p)[f] == owner[f];
    }
  }

  class Memory {
    const first: nat
    const limit: nat
    var ram: seq<Page>
    var freelist: seq<nat>
    ghost var owner: map<nat, Owner>

    ghost predicate Valid()
      reads this
    {
      && 0 < first <= limit <= MAXFRAME && |ram| == limit
      && (forall f: nat :: f in owner <==> first <= f < limit)
      && FreeOk(freelist, owner)
    }

    /** All pages from `first` to `limit` are free. */
    constructor (first: nat, limit: nat)
      requires 0 < first <= limit <= MAXFRAME
      ensures Valid() && this.first == first && this.limit == limit
      ensures forall f | f in owner :: owner[f].Free?
    {
      this.first, this.limit := first, limit;
      ram := seq(limit, _ => AllWords(0));
      freelist := [];
      owner := KernelPages(first, limit);
      new;
      var p := first;
      while p < limit
        invariant first <= p <= limit && Valid()
        invariant forall f | f in owner :: if f < p then owner[f].Free? else owner[f].Kernel?
      {
        var ok := Kfree(p);
        p := p + 1;
      }
    }

    /** Give page `f` back; false is the panic of `kfree`. */
    method Kfree(f: nat) returns (ok: bool)
      requires Valid() && (f in owner ==> !owner[f].Free?)
      modifies this
      ensures Valid() && ok == (first <= f < limit)
      ensures !ok ==> ram == old(ram) && freelist == old(freelist) && owner == old(owner)
      ensures ok ==>
                && freelist == old(freelist) + [f] && owner == old(owner)[f := Free]
                && ram == old(ram)[f := AllWords(0x0101_0101_0101_0101)]
    {
      ok := first <= f < limit;
      if ok {
        ram := ram[f := AllWords(0x0101_0101_0101_0101)];
        freelist := freelist + [f];
        owner := owner[f := Free];
      }
    }

    /** Take a page for `who`; 0 when none is free. */
    method Kalloc(ghost who: Owner) returns (f: nat)
      requires Valid() && !who.Free?
      modifies this
      ensures Valid() && (f == 0 <==> old(freelist) == [])
      ensures f == 0 ==> ram == old(ram) && freelist == old(freelist) && owner == old(owner)
      ensures f != 0 ==> && f in owner && old(owner)[f].Free? && freelist + [f] == old(freelist)
                         && owner == old(owner)[f := who] && ram == old(ram)[f := AllWords(0x0505_0505_0505_0505)]
    {
      f := 0;
      if freelist != [] {
        f := freelist[|freelist| - 1];
        freelist := freelist[..|freelist| - 1];
        ram := ram[f := AllWords(0x0505_0505_0505_0505)];
        owner := owner[f := who];
      }
    }

    /** Link a zeroed page into the place `c` of the tree, entry `i` of page `t`. */
    method NewTable(t: nat, i: nat, ghost id: nat, ghost s: Space, ghost c: Place) returns (f: nat, ghost s': Space)
      requires Valid() && SpaceOk(ram, owner, id, s) && Parent(c) in s.node && t == s.node[Parent(c)] && i == Lo(c.key)
      requires 1 <= c.level <= 2 && c !in s.node
      modifies this
      ensures Valid() && SpaceOk(ram, owner, id, s') && s'.flat == s.flat
      ensures Untouched(old(ram), old(owner), ram, owner, id, MAXVPN) && TookTables(old(owner), owner, id)
      ensures f == 0 ==> s' == s && freelist == [] == old(freelist) && ram == old(ram) && owner == old(owner)
      ensures f != 0 ==> s'.node == s.node[c := f] && freelist + [f] == old(freelist)
    {
      hide Word, Link, Hi, Lo, SpaceOk, Untouched, TookTables;
      Descend(ram, owner, id, s, c);
      ghost var r0, o0 := ram, owner;
      NothingTaken(ram, owner, id);
      f := Kalloc(Table(id, c));
      s' := s;
      if f != 0 {
        ram := ram[f := AllWords(0)];
        ghost var r1 := ram;
        NonTablePage(r0, r1, o0, o0, id, s, f);
        ram := StoreWord(ram, t, i, Link(f));
        s' := s.(node := s.node[c := f]);
        AddTable(r1, ram, o0, owner, id, s, s', c, f);
        TableTaken(r0, ram, o0, owner, id, t, f, c);
      }
    }

    /** The level-0 page for virtual page `n`, adding missing table pages if `alloc`. No mapping
        changes, whether or not memory runs out. */
    method Walk(root: nat, n: nat, alloc: bool, ghost id: nat, ghost s: Space) returns (r: Walked, ghost s': Space)
      requires Valid() && SpaceOk(ram, owner, id, s) && ROOT in s.node && root == s.node[ROOT]
      modifies this
      ensures Valid() && SpaceOk(ram, owner, id, s') && s'.flat == s.flat && ROOT in s'.node && s'.node[ROOT] == root
      ensures Untouched(old(ram), old(owner), ram, owner, id, MAXVPN) && TookTables(old(owner), owner, id)
      ensures freelist <= old(freelist)
      ensures r.OutOfRange? <==> n >= MAXVPN
      ensures n < MAXVPN ==> if Up(n, 1) in s'.node then r == At(s'.node[Up(n, 1)]) else r == Missing
      ensures !alloc || n >= MAXVPN ==> ram == old(ram) && owner == old(owner) && freelist == old(freelist) && s' == s
      ensures alloc && r.Missing? ==> freelist == [] && Short(|old(freelist)|, s, Way(n))
      ensures alloc && r.At? ==> Bought(|old(freelist)|, |freelist|, s, s', Way(n))
    {
      hide Word, Link, Hi, Lo, SpaceOk, Untouched, TookTables, Up, FreeOk;
      s' := s;
      NothingTaken(ram, owner, id);
      if n >= MAXVPN {
        return OutOfRange, s';
      }
      RootIsTop(n);
      var table, level: nat := root, 2;
      while level > 0
        invariant level <= 2 && Up(n, level + 1) in s'.node && table == s'.node[Up(n, level + 1)]
        invariant Valid() && SpaceOk(ram, owner, id, s') && s'.flat == s.flat && ROOT in s'.node
        invariant s'.node[ROOT] == root
        invariant Untouched(old(ram), old(owner), ram, owner, id, MAXVPN) && TookTables(old(owner), owner, id)
        invariant freelist <= old(freelist) && Charged(|old(freelist)|, |freelist|, s, s', Way(n))
        invariant !alloc ==> ram == old(ram) && owner == old(owner) && freelist == old(freelist) && s' == s
      {
        var c := Up(n, level);
        ghost var s1 := s';
        UpStep(n, level);
        Descend(ram, owner, id, s', c);
        WalkEntry(ram, s', c, table);
        var e := ram[table].w[Lo(c.key)];
        if IsValid(e) {
          table := FrameOf(e);
        } else {
          if !alloc {
            MissingBelow(owner, id, ram, s', n, level);
            return Missing, s';
          }
          ghost var r1, o1 := ram, owner;
          table, s' := NewTable(table, Lo(c.key), id, s', c);
          UntouchedTrans(old(ram), old(owner), r1, o1, ram, owner, id, MAXVPN);
          TookTrans(old(owner), o1, owner, id);
          if table == 0 {
            MissingBelow(owner, id, ram, s', n, level);
            OneMissing(s.node.Keys, s'.node.Keys, Way(n), |old(freelist)|, Up(n, 1));
            return Missing, s';
          }
          ChargedOne(|old(freelist)|, |freelist|, s, s1, s', Way(n), c, table);
        }
        level := level - 1;
      }
      r := At(table);
      WayThere(ram, owner, id, s', n);
      if alloc {
        AllThere(s.node.Keys, s'.node.Keys, Way(n), |old(freelist)|, |freelist|);
      }
    }

    /** Store the level-0 entry of virtual page `n`. */
    method SetPte(t: nat, n: nat, e: U64, ghost id: nat, ghost s: Space) returns (ghost s': Space)
      requires Valid() && SpaceOk(ram, owner, id, s) && n < MAXVPN && LeafEntry(e)
      requires Up(n, 1) in s.node && t == s.node[Up(n, 1)]
      modifies this`ram
      ensures Valid() && SpaceOk(ram, owner, id, s') && s' == s.(flat := SetFlat(s.flat, n, e))
      ensures Untouched(old(ram), owner, ram, owner, id, MAXVPN)
    {
      hide Word, Link, Hi, Lo, SpaceOk, Untouched, IsValid, IsLeaf;
      UpOne(n);
      Descend(ram, owner, id, s, Place(0, n));
      ram := StoreWord(ram, t, Lo(n), e);
      s' := s.(flat := SetFlat(s.flat, n, e));
      LeafStore(old(ram), ram, owner, id, s, s', n, e);
      MinePageWritten(old(ram), ram, owner, id, t);
    }

    /** The entry at level 0. */
    method GetPte(t: nat, n: nat, ghost id: nat, ghost s: Space) returns (e: U64)
      requires Valid() && SpaceOk(ram, owner, id, s) && Up(n, 1) in s.node && t == s.node[Up(n, 1)]
      ensures e == if n in s.flat then s.flat[n] else 0
      ensures n in s.flat <==> IsValid(e)
      ensures n in s.flat ==> IsLeaf(e)
    {
      UpOne(n);
      Descend(ram, owner, id, s, Place(0, n));
      e := ram[t].w[Lo(n)];
      assert n in s.flat ==> FlatOk(s, n);
    }

    /** Map virtual page `a` to physical page `f`. */
    method MapOne(root: nat, a: nat, f: nat, perm: nat, ghost id: nat, ghost s: Space)
      returns (r: Mapping, ghost s': Space)
      requires Valid() && SpaceOk(ram, owner, id, s) && ROOT in s.node && root == s.node[ROOT] && LeafPerm(perm)
      requires f < MAXFRAME
      modifies this
      ensures Valid() && SpaceOk(ram, owner, id, s') && ROOT in s'.node && s'.node[ROOT] == root
      ensures Untouched(old(ram), old(owner), ram, owner, id, MAXVPN) && TookTables(old(owner), owner, id)
      ensures freelist <= old(freelist)
      ensures r.Mapped? ==> a < MAXVPN && a !in s.flat && OrV(perm) < 1024 && s'.flat == s.flat[a := Pte(f, OrV(perm))]
      ensures !r.Mapped? ==> s'.flat == s.flat
      ensures r.Refused? <==> a >= MAXVPN || a in s.flat
      ensures r.NoMemory? ==> freelist == [] && Short(|old(freelist)|, s, Way(a))
      ensures r.Mapped? ==> Bought(|old(freelist)|, |freelist|, s, s', Way(a))
    {
      hide Word, Link, Hi, Lo, SpaceOk, Untouched, TookTables, Up, IsValid, IsLeaf, Way, Short;
      var w;
      w, s' := Walk(root, a, true, id, s);
      if w.OutOfRange? {
        return Refused, s';
      }
      if w.Missing? {
        UnmappedBelow(ram, owner, id, s', a);
        return NoMemory, s';
      }
      var e := GetPte(w.table, a, id, s');
      if IsValid(e) {
        return Refused, s';
      }
      LeafPte(f, perm);
      ghost var r1 := ram;
      s' := SetPte(w.table, a, Pte(f, OrV(perm)), id, s');
      UntouchedTrans(old(ram), old(owner), r1, owner, ram, owner, id, MAXVPN);
      r := Mapped;
    }

    /** Map the pages of `size` bytes from `va` on to consecutive physical pages from `pa` on. `k` of
        them are mapped: all of them, or those before a panic or before memory ran out. When the sum
        of `va` and `size` wraps around, the last page may lie below the first one, and then mapping
        goes on until one of the two happens. */
    method Mappages(root: nat, va: U64, size: U64, pa: nat, perm: nat, ghost id: nat, ghost s: Space)
      returns (r: Mapping, ghost s': Space, ghost k: nat)
      requires Valid() && SpaceOk(ram, owner, id, s) && ROOT in s.node && root == s.node[ROOT] && LeafPerm(perm)
      requires pa / PGSIZE + Span(va, size) <= MAXFRAME
      modifies this
      ensures Valid() && SpaceOk(ram, owner, id, s') && ROOT in s'.node && s'.node[ROOT] == root
      ensures Untouched(old(ram), old(owner), ram, owner, id, MAXVPN) && TookTables(old(owner), owner, id)
      ensures freelist <= old(freelist)
      ensures k <= Span(va, size) && s'.flat == AddRange(s.flat, va / PGSIZE, k, pa / PGSIZE, perm)
      ensures Vacant(s.flat, va / PGSIZE, va / PGSIZE + k) && (k > 0 ==> va / PGSIZE + k <= MAXVPN)
      ensures r.Mapped? ==> size > 0 && va / PGSIZE + k == LastPage(va, size) + 1
      ensures !r.Mapped? && size > 0 ==> va / PGSIZE + k <= LastPage(va, size) || LastPage(va, size) < va / PGSIZE
      ensures r.NoMemory? ==> size > 0 && freelist == [] && va / PGSIZE + k < MAXVPN && va / PGSIZE + k !in s.flat
      ensures r.NoMemory? ==> Short(|old(freelist)|, s, Ways(va / PGSIZE, va / PGSIZE + k + 1))
      ensures r.Mapped? ==> Bought(|old(freelist)|, |freelist|, s, s', Ways(va / PGSIZE, va / PGSIZE + k))
      ensures r.Refused? ==> size == 0 || va / PGSIZE + k >= MAXVPN || va / PGSIZE + k in s.flat
    {
      hide SpaceOk, Untouched, TookTables, LeafPerm, Pte, AddRange, Vacant, FreeOk, Way, Ways, Bought, Short;
      s', k := s, 0;
      NothingTaken(ram, owner, id);
      var n0, f0 := va / PGSIZE, pa / PGSIZE;
      PermBound(perm);
      AddNothing(s.flat, n0, f0, perm);
      BoughtNothing(|freelist|, s, n0);
      if size == 0 {
        return Refused, s', k;
      }
      var a, last, f := n0, LastPage(va, size), f0;
      while true
        invariant a == n0 + k && f == f0 + k && (a <= last || last < n0) && (k > 0 ==> a <= MAXVPN)
        invariant Valid() && SpaceOk(ram, owner, id, s') && ROOT in s'.node && s'.node[ROOT] == root
        invariant Untouched(old(ram), old(owner), ram, owner, id, MAXVPN) && TookTables(old(owner), owner, id)
        invariant freelist <= old(freelist) && k <= Span(va, size)
        invariant s'.flat == AddRange(s.flat, n0, k, f0, perm) && Vacant(s.flat, n0, a)
        invariant Bought(|old(freelist)|, |freelist|, s, s', Ways(n0, a))
        decreases MAXVPN - a
      {
        ghost var r1, o1, s1, free1 := ram, owner, s', |freelist|;
        AddRangeAt(s.flat, n0, k, f0, perm, a);
        r, s' := MapOne(root, a, f, perm, id, s');
        UntouchedTrans(old(ram), old(owner), r1, o1, ram, owner, id, MAXVPN);
        TookTrans(old(owner), o1, owner, id);
        BoughtMore(|old(freelist)|, free1, |freelist|, s, s1, s', n0, a);
        if !r.Mapped? {
          return;
        }
        AddMore(s.flat, n0, k, f0, perm);
        k := k + 1;
        if a == last {
          return;
        }
        a, f := a + 1, f + 1;
      }
    }

    /** `mappages` for one page, as all its callers here use it: virtual page `a` to physical page `f`. */
    method MapPage(root: nat, a: nat, f: nat, perm: nat, ghost id: nat, ghost s: Space)
      returns (r: Mapping, ghost s': Space)
      requires Valid() && SpaceOk(ram, owner, id, s) && ROOT in s.node && root == s.node[ROOT] && LeafPerm(perm)
      requires a < MAXVPN && f < MAXFRAME
      modifies this
      ensures Valid() && SpaceOk(ram, owner, id, s') && ROOT in s'.node && s'.node[ROOT] == root
      ensures Untouched(old(ram), old(owner), ram, owner, id, MAXVPN) && TookTables(old(owner), owner, id)
      ensures r.Mapped? ==> a !in s.flat && OrV(perm) < 1024 && s'.flat == s.flat[a := Pte(f, OrV(perm))]
      ensures !r.Mapped? ==> s'.flat == s.flat
      ensures r.Refused? <==> a in s.flat
      ensures r.NoMemory? ==> Short(|old(freelist)|, s, Way(a))
      ensures r.Mapped? ==> Bought(|old(freelist)|, |freelist|, s, s', Way(a))
    {
      hide SpaceOk, Untouched, TookTables, LeafPerm, Pte, Vacant, FreeOk, Way, Ways, Bought, Short;
      PermBound(perm);
      OnePage(a);
      WaysOne(a);
      VacantOne(s.flat, a);
      ghost var k;
      r, s', k := Mappages(root, a * PGSIZE, PGSIZE, f * PGSIZE, perm, id, s);
      AddNothing(s.flat, a, f, perm);
      if k > 0 {
        AddMore(s.flat, a, 0, f, perm);
      }
    }

    /** Unmap virtual page `a`, giving back its page if `free`; false is a panic. */
    method UnmapOne(root: nat, a: nat, free: bool, ghost id: nat, ghost s: Space, ghost np: nat)
      returns (ok: bool, ghost s': Space)
      requires Valid() && SpaceOk(ram, owner, id, s) && ROOT in s.node && root == s.node[ROOT] && np <= MAXVPN
      requires free && a in s.flat ==> PageBacked(owner, id, s, a) && np <= a
      modifies this
      ensures Valid() && SpaceOk(ram, owner, id, s') && s'.node == s.node && ok == (a in s.flat)
      ensures !ok ==> s' == s && owner == old(owner)
      ensures ok ==>
                s'.flat == s.flat - {a} && owner == if free then old(owner)[FrameOf(s.flat[a]) := Free] else old(owner)
      ensures Untouched(old(ram), old(owner), ram, owner, id, np)
    {
      hide Word, Link, Hi, Lo, SpaceOk, Untouched, TookTables, Up, IsValid, IsLeaf, FreeOk;
      var w;
      w, s' := Walk(root, a, false, id, s);
      NothingTaken(ram, owner, id);
      UntouchedLess(ram, owner, ram, owner, id, MAXVPN, np);
      if w.OutOfRange? || w.Missing? {
        NotMapped(ram, owner, id, s, a);
        return false, s;
      }
      var e := GetPte(w.table, a, id, s);
      if !IsValid(e) {
        return false, s;
      }
      if FlagsOf(e) == PTE_V {
        LeafIsNotLink(e);
        assert false;
      }
      if free {
        ghost var r0, o0 := ram, owner;
        var f := FrameOf(e);
        ok := Kfree(f);
        NonTablePage(r0, ram, o0, owner, id, s, f);
        FreedData(r0, ram, o0, id, np, f, a);
      }
      ghost var r1 := ram;
      s' := SetPte(w.table, a, 0, id, s);
      UntouchedLess(r1, owner, ram, owner, id, MAXVPN, np);
      UntouchedTrans(old(ram), old(owner), r1, owner, ram, owner, id, np);
      ok := true;
    }

    /** Remove `npages` mappings from `va` on, giving back their pages if `free`; false is a panic,
        which happens exactly when `va` is not aligned or a page of the range is not mapped. */
    method Uvmunmap(root: nat, va: nat, npages: nat, free: bool, ghost id: nat, ghost s: Space, ghost np: nat)
      returns (ok: bool, ghost s': Space)
      requires Valid() && SpaceOk(ram, owner, id, s) && ROOT in s.node && root == s.node[ROOT]
      requires free ==> Backed(owner, id, s, va / PGSIZE, va / PGSIZE + npages) && np <= va / PGSIZE
      requires np <= MAXVPN
      modifies this
      ensures Valid() && SpaceOk(ram, owner, id, s') && s'.node == s.node
      ensures ok <==> va % PGSIZE == 0 && forall n: nat | va / PGSIZE <= n < va / PGSIZE + npages :: n in s.flat
      ensures ok ==> s'.flat == DropRange(s.flat, va / PGSIZE, va / PGSIZE + npages)
      ensures ok ==> owner == if free then Release(old(owner), id, va / PGSIZE, va / PGSIZE + npages) else old(owner)
      ensures Untouched(old(ram), old(owner), ram, owner, id, np)
    {
      hide SpaceOk, Untouched, FreeOk, Backed, Release, DropRange;
      s', ok := s, false;
      NothingTaken(ram, owner, id);
      UntouchedLess(ram, owner, ram, owner, id, MAXVPN, np);
      if va % PGSIZE != 0 {
        return;
      }
      var lo := va / PGSIZE;
      ghost var hi := lo + npages;
      var a := lo;
      ReleaseNothing(owner, id, lo);
      DropNothing(s.flat, lo);
      while a < lo + npages
        invariant lo <= a <= lo + npages
        invariant Valid() && SpaceOk(ram, owner, id, s') && s'.node == s.node && s'.flat == DropRange(s.flat, lo, a)
        invariant owner == if free then Release(old(owner), id, lo, a) else old(owner)
        invariant forall n: nat | lo <= n < a :: n in s.flat
        invariant Untouched(old(ram), old(owner), ram, owner, id, np)
      {
        ghost var r1, o1 := ram, owner;
        DropStep(s.flat, lo, a);
        if free && a in s.flat {
          StillBacked(old(owner), id, s, s', lo, hi, a);
        }
        ok, s' := UnmapOne(root, a, free, id, s', np);
        UntouchedTrans(old(ram), old(owner), r1, o1, ram, owner, id, np);
        if !ok {
          return;
        }
        a := a + 1;
      }
      ok := true;
    }

    /** Take a page, give it the contents `x` and map it as virtual page `np`, the first one past the
        user memory. If memory runs out, only table pages have been taken; the panic "remap" waits
        where the trap frame is mapped. */
    method GrowOne(root: nat, np: nat, x: Page, perm: nat, ghost id: nat, ghost s: Space)
      returns (r: Mapping, ghost s': Space)
      requires Valid() && SpaceOk(ram, owner, id, s) && ROOT in s.node && root == s.node[ROOT]
      requires Region(owner, id, s, np) && LeafPerm(perm)
      requires TOP in s.flat
      modifies this
      ensures Valid() && SpaceOk(ram, owner, id, s') && ROOT in s'.node && s'.node[ROOT] == root
      ensures r.Refused? ==> np == TOP
      ensures r.Mapped? ==>
                && np < TOP && OrV(perm) < 1024 && Region(owner, id, s', np + 1) && np in s'.flat
                && s'.flat == s.flat[np := s'.flat[np]]
                && Loaded(ram, s'.flat[np], OrV(perm), x) && Grew(old(owner), owner, id, np)
      ensures r.NoMemory? ==> s'.flat == s.flat && TookTables(old(owner), owner, id) && Region(owner, id, s', np)
      ensures !r.Refused? ==> Untouched(old(ram), old(owner), ram, owner, id, np)
      ensures r.Mapped? ==>
                s'.node.Keys == s.node.Keys + Way(np) && |old(freelist)| == |freelist| + 1 + |Way(np) - s.node.Keys|
      ensures r.NoMemory? ==> |old(freelist)| < 1 + |Way(np) - s.node.Keys|
    {
      hide Word, Link, Hi, Lo, SpaceOk, Untouched, TookTables, Grew, FreeOk, Pte, Region, LeafPerm, Way;
      ghost var r0, o0 := ram, owner;
      s' := s;
      RegionBound(owner, id, s, np);
      NothingTaken(ram, owner, id);
      UntouchedLess(ram, owner, ram, owner, id, MAXVPN, np);
      var f := Kalloc(Data(id, np));
      if f == 0 {
        return NoMemory, s';
      }
      ram := ram[f := x];
      ghost var r1, o1 := ram, owner;
      NonTablePage(r0, r1, o0, o1, id, s, f);
      TookData(r0, r1, o0, id, np, f, np);
      r, s' := MapPage(root, np, f, perm, id, s);
      UntouchedLess(r1, o1, ram, owner, id, MAXVPN, np);
      UntouchedTrans(r0, o0, r1, o1, ram, owner, id, np);
      TookAndGave(o0, owner, id, np, f);
      if r.Mapped? {
        assert Spared(r1, o1, ram, owner, id, MAXVPN, f) by { UntouchedAt(r1, o1, ram, owner, id, MAXVPN, f); }
        RegionGrows(o0, owner, id, s, s', np, f, Pte(f, OrV(perm)));
        TookGrew(o1, owner, id, np);
        GrewTrans(o0, o1, owner, id, np);
      } else if r.NoMemory? {
        ghost var r2, o2 := ram, owner;
        var ok := Kfree(f);
        NonTablePage(r2, ram, o2, owner, id, s', f);
        FreedData(r2, ram, o2, id, np, f, np);
        UntouchedTrans(r0, o0, r2, o2, ram, owner, id, np);
        RegionKept(o0, owner, id, s, s', np);
      }
    }

    /** Shrink the user memory of `np` pages from `oldsz` to `newsz` bytes. None is a panic, which
        happens exactly when the pages to give up go beyond the pages there are; pages beyond `oldsz`
        stay. */
    method Uvmdealloc(root: nat, oldsz: nat, newsz: nat, ghost id: nat, ghost s: Space, ghost np: nat)
      returns (r: Option<nat>, ghost s': Space)
      requires Valid() && SpaceOk(ram, owner, id, s) && ROOT in s.node && root == s.node[ROOT]
      requires Region(owner, id, s, np) && oldsz <= TOP * PGSIZE
      modifies this
      ensures Valid() && SpaceOk(ram, owner, id, s') && s'.node == s.node
      ensures newsz >= oldsz ==> r == Some(oldsz) && s' == s && owner == old(owner) && ram == old(ram)
      ensures newsz < oldsz ==> (r == None <==> PgUp(newsz) < PgUp(oldsz) && np < PgUp(oldsz))
      ensures newsz < oldsz && r.Some? ==>
                && r == Some(newsz) && owner == Release(old(owner), id, PgUp(newsz), PgUp(oldsz))
                && s'.flat == DropRange(s.flat, PgUp(newsz), PgUp(oldsz))
                && Untouched(old(ram), old(owner), ram, owner, id, PgUp(newsz))
      ensures newsz < oldsz && np == PgUp(oldsz) ==> PgUp(newsz) <= np && Region(owner, id, s', PgUp(newsz))
    {
      hide SpaceOk, Untouched, FreeOk, Backed, Release, DropRange;
      s' := s;
      if newsz >= oldsz {
        return Some(oldsz), s;
      }
      NothingTaken(ram, owner, id);
      UntouchedLess(ram, owner, ram, owner, id, MAXVPN, PgUp(newsz));
      ReleaseNothing(owner, id, PgUp(oldsz));
      DropNothing(s.flat, PgUp(oldsz));
      if PgUp(newsz) < PgUp(oldsz) {
        var lo, npages := PgUp(newsz), PgUp(oldsz) - PgUp(newsz);
        RegionBacked(owner, id, s, np, lo, lo + npages);
        assert np < PgUp(oldsz) ==> PgUp(oldsz) - 1 !in s.flat;
        var ok;
        ok, s' := Uvmunmap(root, lo * PGSIZE, npages, true, id, s, lo);
        if !ok {
          return None, s';
        }
        assert PgUp(oldsz) - 1 in s.flat;
      }
      if np == PgUp(oldsz) {
        RegionShrinks(old(owner), id, s, s', np, PgUp(newsz));
      }
      r := Some(newsz);
    }

    /** Memory ran out: give back the data pages from `np` to `a`. */
    method Undo(root: nat, a: nat, np: nat, ghost r0: seq<Page>, ghost o0: map<nat, Owner>, ghost id: nat,
                ghost s: Space, ghost s1: Space)
      returns (ghost s': Space)
      requires Valid() && SpaceOk(ram, owner, id, s1) && ROOT in s1.node && root == s1.node[ROOT] && np <= a
      requires Region(o0, id, s, np) && Region(owner, id, s1, a) && Added(s, s1, np, a)
      requires Grew(o0, owner, id, np) && Untouched(r0, o0, ram, owner, id, np)
      modifies this
      ensures Valid() && SpaceOk(ram, owner, id, s') && s'.node == s1.node && s'.flat == s.flat
      ensures Region(owner, id, s', np) && TookTables(o0, owner, id) && Untouched(r0, o0, ram, owner, id, np)
    {
      hide SpaceOk, Untouched, FreeOk, Backed, Release, DropRange, Grew, TookTables, Region, Added;
      ghost var r1, o1 := ram, owner;
      RegionBound(owner, id, s1, a);
      AddedDropped(o0, id, s, s1, np, a);
      GaveBack(o0, o1, id, s, s1, np, a);
      ReleaseNothing(owner, id, np);
      DropNothing(s1.flat, np);
      PgUpExact(a);
      PgUpExact(np);
      var r;
      r, s' := Uvmdealloc(root, a * PGSIZE, np * PGSIZE, id, s1, a);
      if np < a {
        UntouchedTrans(r0, o0, r1, o1, ram, owner, id, np);
      }
    }

    /** Grow the user memory from `oldsz` to `newsz` bytes with zeroed pages. 0 means no memory, and
        then no data page is kept; None is the panic of growing into the trap frame. */
    method Uvmalloc(root: nat, oldsz: nat, newsz: nat, ghost id: nat, ghost s: Space)
      returns (r: Option<nat>, ghost s': Space)
      requires Valid() && SpaceOk(ram, owner, id, s) && ROOT in s.node && root == s.node[ROOT]
      requires Region(owner, id, s, PgUp(oldsz)) && TOP in s.flat
      modifies this
      ensures Valid() && SpaceOk(ram, owner, id, s') && ROOT in s'.node && s'.node[ROOT] == root
      ensures r == None ==> newsz > TOP * PGSIZE && TOP <= limit - first
      ensures r.Some? ==> Untouched(old(ram), old(owner), ram, owner, id, PgUp(oldsz))
      ensures newsz < oldsz ==> r == Some(oldsz) && s' == s && owner == old(owner) && freelist == old(freelist)
      ensures newsz == oldsz == 0 ==> s' == s && owner == old(owner)
      ensures newsz >= oldsz && r.Some? ==> r == Some(newsz) || r == Some(0)
      ensures newsz >= oldsz && r == Some(newsz) && newsz > 0 ==>
                && Region(owner, id, s', PgUp(newsz)) && Added(s, s', PgUp(oldsz), PgUp(newsz))
                && Zeros(ram, s', PgUp(oldsz), PgUp(newsz))
                && Paid(|old(freelist)|, |freelist|, s, s', PgUp(oldsz), PgUp(newsz))
      ensures newsz >= oldsz && newsz > 0 && r == Some(0) ==>
                && s'.flat == s.flat && Region(owner, id, s', PgUp(oldsz)) && TookTables(old(owner), owner, id)
                && TooFew(|old(freelist)|, s, PgUp(oldsz), PgUp(newsz))
    {
      hide SpaceOk, Untouched, FreeOk, Backed, Release, DropRange, Grew, TookTables, Region, Loaded, Way, Paid, TooFew;
      s' := s;
      var np := PgUp(oldsz);
      RegionBound(owner, id, s, np);
      NothingTaken(ram, owner, id);
      UntouchedLess(ram, owner, ram, owner, id, MAXVPN, np);
      if newsz < oldsz {
        return Some(oldsz), s;
      }
      var a := np;
      TookGrew(owner, owner, id, np);
      PaidNothing(|freelist|, s, np);
      while a * PGSIZE < newsz
        invariant np <= a && (a == np || a <= PgUp(newsz)) && (newsz == 0 ==> s' == s && owner == old(owner))
        invariant Valid() && SpaceOk(ram, owner, id, s') && ROOT in s'.node && s'.node[ROOT] == root && TOP in s'.flat
        invariant Region(owner, id, s', a) && Added(s, s', np, a) && Zeros(ram, s', np, a)
        invariant Paid(|old(freelist)|, |freelist|, s, s', np, a)
        invariant Untouched(old(ram), old(owner), ram, owner, id, np) && Grew(old(owner), owner, id, np)
        decreases newsz - a * PGSIZE
      {
        ghost var r1, o1, s1, free1 := ram, owner, s', |freelist|;
        var m;
        RegionBound(owner, id, s', a);
        m, s' := GrowOne(root, a, AllWords(0), PTE_W + PTE_X + PTE_R + PTE_U, id, s');
        if m.Refused? {
          RegionSmall(o1, id, s1, a, first, limit);
          return None, s';
        }
        UntouchedLess(r1, o1, ram, owner, id, a, np);
        UntouchedTrans(old(ram), old(owner), r1, o1, ram, owner, id, np);
        if m.NoMemory? {
          TookGrew(o1, owner, id, np);
          GrewTrans(old(owner), o1, owner, id, np);
          AddedKept(s, s1, s', np, a);
          RanOut(|old(freelist)|, free1, s, s1, np, a, PgUp(newsz));
          s' := Undo(root, a, np, old(ram), old(owner), id, s, s');
          return Some(0), s';
        }
        GrewLess(o1, owner, id, a, np);
        GrewTrans(old(owner), o1, owner, id, np);
        AddedStep(s, s1, s', np, a);
        PaidStep(|old(freelist)|, free1, |freelist|, s, s1, s', np, a);
        ZerosStep(r1, o1, ram, owner, id, s1, s', np, a);
        a := a + 1;
      }
      r := Some(newsz);
    }

    /** The entry of a mapped user page; the two panics of `uvmcopy` cannot happen. */
    method UserPte(root: nat, n: nat, ghost id: nat, ghost s: Space, ghost np: nat) returns (e: U64)
      requires Valid() && SpaceOk(ram, owner, id, s) && ROOT in s.node && root == s.node[ROOT]
      requires Region(owner, id, s, np) && n < np
      modifies this
      ensures ram == old(ram) && owner == old(owner) && freelist == old(freelist)
      ensures n in s.flat && e == s.flat[n] && FrameOf(e) < |ram| && LeafPerm(FlagsOf(e))
      ensures OrV(FlagsOf(e)) == FlagsOf(e)
    {
      hide Word, Link, Hi, Lo, SpaceOk, Untouched, TookTables, Up, IsValid, IsLeaf, FreeOk;
      assert n in s.flat;
      var w, s' := Walk(root, n, false, id, s);
      if n >= MAXVPN || Up(n, 1) !in s.node {
        NotMapped(ram, owner, id, s, n);
        assert false;
      }
      e := GetPte(w.table, n, id, s);
      assert PageBacked(owner, id, s, n);
      LeafFlags(e);
    }

    /** Copy the parent's user memory of `sz` bytes into the child's address space, which has none.
        -1 means no memory, and then no data page is kept. */
    method Uvmcopy(proot: nat, croot: nat, sz: nat, ghost pid: nat, ghost ps: Space, ghost cid: nat, ghost cs: Space)
      returns (r: int, ghost cs': Space)
      requires Valid() && SpaceOk(ram, owner, pid, ps) && ROOT in ps.node && proot == ps.node[ROOT]
      requires Region(owner, pid, ps, PgUp(sz))
      requires SpaceOk(ram, owner, cid, cs) && ROOT in cs.node && croot == cs.node[ROOT] && Region(owner, cid, cs, 0)
      requires TOP in cs.flat && pid != cid
      modifies this
      ensures Valid() && SpaceOk(ram, owner, pid, ps) && Region(owner, pid, ps, PgUp(sz))
      ensures SpaceOk(ram, owner, cid, cs') && ROOT in cs'.node && cs'.node[ROOT] == croot
      ensures Untouched(old(ram), old(owner), ram, owner, cid, 0)
      ensures r == 0 || r == -1
      ensures r == 0 ==>
                && Region(owner, cid, cs', PgUp(sz)) && Added(cs, cs', 0, PgUp(sz)) && Copies(ram, ps, cs', PgUp(sz))
                && Paid(|old(freelist)|, |freelist|, cs, cs', 0, PgUp(sz))
      ensures r == -1 ==>
                && cs'.flat == cs.flat && Region(owner, cid, cs', 0) && TookTables(old(owner), owner, cid)
                && TooFew(|old(freelist)|, cs, 0, PgUp(sz))
    {
      hide SpaceOk, Untouched, FreeOk, Backed, Release, DropRange, Grew, TookTables, Region, Loaded, FrameOf, FlagsOf,
          LeafPerm, OrV, Way, Paid, TooFew;
      cs' := cs;
      ghost var np := PgUp(sz);
      RegionBound(owner, pid, ps, np);
      NothingTaken(ram, owner, cid);
      UntouchedLess(ram, owner, ram, owner, cid, MAXVPN, 0);
      TookGrew(owner, owner, cid, 0);
      PaidNothing(|freelist|, cs, 0);
      var a: nat := 0;
      while a * PGSIZE < sz
        invariant a <= np
        invariant Valid() && SpaceOk(ram, owner, pid, ps) && Region(owner, pid, ps, np)
        invariant SpaceOk(ram, owner, cid, cs') && ROOT in cs'.node && cs'.node[ROOT] == croot && TOP in cs'.flat
        invariant Region(owner, cid, cs', a) && Added(cs, cs', 0, a) && Copies(ram, ps, cs', a)
        invariant Paid(|old(freelist)|, |freelist|, cs, cs', 0, a)
        invariant Untouched(old(ram), old(owner), ram, owner, cid, 0) && Grew(old(owner), owner, cid, 0)
        decreases sz - a * PGSIZE
      {
        var e := UserPte(proot, a, pid, ps, np);
        ghost var r1, o1, c1, free1 := ram, owner, cs', |freelist|;
        var m;
        m, cs' := GrowOne(croot, a, ram[FrameOf(e)], FlagsOf(e), cid, cs');
        UntouchedLess(r1, o1, ram, owner, cid, a, 0);
        UntouchedTrans(old(ram), old(owner), r1, o1, ram, owner, cid, 0);
        OtherSpace(r1, o1, ram, owner, cid, a, pid, ps);
        OtherRegion(r1, o1, ram, owner, cid, a, pid, ps, np);
        if m.NoMemory? {
          TookGrew(o1, owner, cid, 0);
          GrewTrans(old(owner), o1, owner, cid, 0);
          AddedKept(cs, c1, cs', 0, a);
          RanOut(|old(freelist)|, free1, cs, c1, 0, a, np);
          ghost var r2, o2 := ram, owner;
          cs' := UndoCopy(croot, a, old(ram), old(owner), cid, cs, cs');
          OtherSpace(r2, o2, ram, owner, cid, 0, pid, ps);
          OtherRegion(r2, o2, ram, owner, cid, 0, pid, ps, np);
          return -1, cs';
        }
        GrewLess(o1, owner, cid, a, 0);
        GrewTrans(old(owner), o1, owner, cid, 0);
        AddedStep(cs, c1, cs', 0, a);
        PaidStep(|old(freelist)|, free1, |freelist|, cs, c1, cs', 0, a);
        CopiesStep(r1, o1, ram, owner, pid, ps, np, cid, c1, cs', a);
        a := a + 1;
      }
      r := 0;
    }

    /** Memory ran out: unmap and give back the child's `a` pages. */
    method UndoCopy(root: nat, a: nat, ghost r0: seq<Page>, ghost o0: map<nat, Owner>, ghost id: nat, ghost s: Space,
                    ghost s1: Space)
      returns (ghost s': Space)
      requires Valid() && SpaceOk(ram, owner, id, s1) && ROOT in s1.node && root == s1.node[ROOT]
      requires Region(o0, id, s, 0) && Region(owner, id, s1, a) && Added(s, s1, 0, a)
      requires Grew(o0, owner, id, 0) && Untouched(r0, o0, ram, owner, id, 0)
      modifies this
      ensures Valid() && SpaceOk(ram, owner, id, s') && s'.node == s1.node && s'.flat == s.flat
      ensures Region(owner, id, s', 0) && TookTables(o0, owner, id)
      ensures Untouched(r0, o0, ram, owner, id, 0) && Untouched(old(ram), old(owner), ram, owner, id, 0)
    {
      hide SpaceOk, Untouched, FreeOk, Backed, Release, DropRange, Grew, TookTables, Added;
      ghost var r1, o1 := ram, owner;
      RegionBound(owner, id, s1, a);
      RegionBacked(owner, id, s1, a, 0, a);
      AddedDropped(o0, id, s, s1, 0, a);
      GaveBack(o0, o1, id, s, s1, 0, a);
      var ok;
      ok, s' := Uvmunmap(root, 0, a, true, id, s1, 0);
      RegionShrinks(o1, id, s1, s', a, 0);
      UntouchedTrans(r0, o0, r1, o1, ram, owner, id, 0);
    }

    // ----- freeing page tables -----

    /** Free the page-table pages below and at `t`, the page at place `p`; false is the panic on
        finding a leaf, which happens exactly when a page is still mapped there. */
    method Freewalk(t: nat, ghost id: nat, ghost s: Space, ghost p: Place) returns (ok: bool)
      requires Valid() && SubOk(ram, owner, id, s, p) && t == s.node[p]
      modifies this
      ensures Valid() && (ok <==> Bare(s, p))
      ensures ok ==> owner == WithoutTree(old(owner), id, p)
      ensures ok ==> forall f: nat | f in owner && !InTree(old(owner)[f], id, p) :: ram[f] == old(ram)[f]
      decreases p.level
    {
      hide SubOk, Bare, BareKids, WithoutTree, WithoutKids, InKids, InTree, ChildOf, IsValid, IsLeaf, FreeOk;
      ghost var r0, o0 := ram, owner;
      KidWord(ram, owner, id, s, p, 0);
      TreeOwner(r0, o0, id, s, p);
      WithoutNoKids(owner, id, p);
      NoneBare(s, p);
      var i: nat := 0;
      while i < 512
        invariant i <= 512 && Valid() && BareKids(s, p, i)
        invariant owner == WithoutKids(o0, id, p, i)
        invariant forall f: nat | f in o0 && !InKids(o0[f], id, p, i) && f != t :: ram[f] == r0[f]
        invariant forall j | i <= j < 512 :: ram[t].w[j] == r0[t].w[j]
      {
        var e := ram[t].w[i];
        KidWord(r0, o0, id, s, p, i);
        BareStep(s, p, i);
        ghost var c := ChildOf(p, i);
        if IsValid(e) && !IsLeaf(e) {
          KidOk(r0, o0, ram, owner, id, s, p, i);
          ghost var r1, o1 := ram, owner;
          ok := Freewalk(FrameOf(e), id, s, c);
          if !ok {
            return;
          }
          WithoutKidsStep(o0, id, p, i);
          KidsSpared(r0, o0, r1, o1, ram, id, p, i, t);
          ram := StoreWord(ram, t, i, 0);
        } else if IsValid(e) {
          return false;
        } else {
          NoKid(r0, o0, id, s, p, i);
          KidsGrow(o0, id, p, i);
        }
        i := i + 1;
      }
      BareStep(s, p, 0);
      StillTable(o0, id, p, t);
      WithoutAll(o0, id, p, t);
      TreeOutside(o0, id, p, t);
      ok := Kfree(t);
    }

    /** Free the user memory, then the page table. No panic happens when nothing but the user memory
        is mapped, and then the address space owns no page any more. */
    method Uvmfree(root: nat, sz: nat, ghost id: nat, ghost s: Space) returns (ok: bool)
      requires Valid() && SpaceOk(ram, owner, id, s) && ROOT in s.node && root == s.node[ROOT]
      requires Region(owner, id, s, PgUp(sz))
      modifies this
      ensures Valid() && (ok <==> forall n: nat | n in s.flat :: n < TOP)
      ensures ok ==> owner == Disowned(old(owner), id) && Untouched(old(ram), old(owner), ram, owner, id, 0)
    {
      hide SpaceOk, Untouched, FreeOk, Backed, Release, DropRange, Bare, WithoutTree, InTree;
      ghost var s1 := s;
      ghost var np := PgUp(sz);
      RegionBound(owner, id, s, np);
      RegionBacked(owner, id, s, np, 0, np);
      NothingTaken(ram, owner, id);
      UntouchedLess(ram, owner, ram, owner, id, MAXVPN, 0);
      ReleaseNothing(owner, id, 0);
      DropNothing(s.flat, 0);
      if sz > 0 {
        ok, s1 := Uvmunmap(root, 0, PgUp(sz), true, id, s, 0);
      }
      ghost var r1, o1 := ram, owner;
      WholeTree(ram, owner, id, s1);
      BareTop(r1, o1, id, s, s1, np);
      ok := Freewalk(root, id, s1, ROOT);
      if ok {
        AllGone(old(owner), o1, id, s, np);
        TreeUntouched(r1, o1, ram, owner, id);
        UntouchedTrans(old(ram), old(owner), r1, o1, ram, owner, id, 0);
      }
    }

    // ----- a process's page table -----

    /** An empty page table for a new address space; 0 when there is no memory. */
    method Uvmcreate(ghost id: nat) returns (root: nat, ghost s: Space)
      requires Valid() && Unheard(owner, id)
      modifies this
      ensures Valid() && Untouched(old(ram), old(owner), ram, owner, id, MAXVPN) && TookTables(old(owner), owner, id)
      ensures root == 0 ==> owner == old(owner) && old(freelist) == []
      ensures root != 0 ==> |freelist| + 1 == |old(freelist)|
      ensures root != 0 ==>
                SpaceOk(ram, owner, id, s) && s == Space(map[ROOT := root], map[]) && Region(owner, id, s, 0)
    {
      hide Word, Link, Hi, Lo, FreeOk;
      root := Kalloc(Table(id, ROOT));
      s := Space(map[ROOT := root], map[]);
      if root != 0 {
        ram := ram[root := AllWords(0)];
        EmptySpace(ram, old(owner), owner, id, s, root);
      }
    }

    /** A process's page table: only the trap frame `tf` and the trampoline `tr` are mapped. 0 when
        there is no memory, and then every page taken has been given back. */
    method ProcPagetable(tf: nat, tr: nat, ghost id: nat) returns (root: nat, ghost s: Space)
      requires Valid() && Unheard(owner, id) && tf < MAXFRAME && tr < MAXFRAME
      modifies this
      ensures Valid() && Untouched(old(ram), old(owner), ram, owner, id, 0)
      ensures root == 0 ==> owner == old(owner) && |old(freelist)| < |HIGH|
      ensures root != 0 ==> s.node.Keys == HIGH && |old(freelist)| == |freelist| + |HIGH|
      ensures root != 0 ==>
                && SpaceOk(ram, owner, id, s) && ROOT in s.node && s.node[ROOT] == root && Region(owner, id, s, 0)
                && s.flat == map[TOP := Pte(tf, 7), TOP + 1 := Pte(tr, 11)]
    {
      hide SpaceOk, Untouched, TookTables, Region, FreeOk, Pte, Way, Bought, Short;
      ghost var r0, o0 := ram, owner;
      HighSize();
      root, s := Uvmcreate(id);
      UntouchedLess(r0, o0, ram, owner, id, MAXVPN, 0);
      if root == 0 {
        return;
      }
      ghost var r1, o1, s1, free1 := ram, owner, s, |freelist|;
      var m;
      m, s := MapPage(root, TOP + 1, tr, PTE_R + PTE_X, id, s);
      UntouchedLess(r1, o1, ram, owner, id, MAXVPN, 0);
      UntouchedTrans(r0, o0, r1, o1, ram, owner, id, 0);
      TookTrans(o0, o1, owner, id);
      ghost var r2, o2, s2, free2 := ram, owner, s, |freelist|;
      if m.NoMemory? {
        RegionKept(o1, o2, id, s1, s, 0);
        HighShort(free1, s1, root);
        Abandon(root, id, s, r0, o0);
        return 0, s;
      }
      RegionHigh(o1, o2, id, s1, s, 0);
      HighBought(free1, free2, s1, s2, root);
      m, s := MapPage(root, TOP, tf, PTE_R + PTE_W, id, s);
      UntouchedLess(r2, o2, ram, owner, id, MAXVPN, 0);
      UntouchedTrans(r0, o0, r2, o2, ram, owner, id, 0);
      TookTrans(o0, o2, owner, id);
      RegionHigh(o2, owner, id, s2, s, 0);
      HighThere(free2, s2);
      if m.NoMemory? {
        assert false;
      }
      HighStays(free2, |freelist|, s2, s);
    }

    /** Free a page table with nothing mapped, as if it had never been made. */
    method Abandon(root: nat, ghost id: nat, ghost s: Space, ghost r0: seq<Page>, ghost o0: map<nat, Owner>)
      requires Valid() && SpaceOk(ram, owner, id, s) && ROOT in s.node && root == s.node[ROOT]
      requires Region(owner, id, s, 0) && s.flat == map[]
      requires Unheard(o0, id) && TookTables(o0, owner, id) && Untouched(r0, o0, ram, owner, id, 0)
      modifies this
      ensures Valid() && owner == o0 && Untouched(r0, o0, ram, owner, id, 0)
    {
      hide SpaceOk, Untouched, TookTables, Region, FreeOk;
      ghost var r1, o1 := ram, owner;
      DisownedAgain(o0, owner, id);
      var ok := Uvmfree(root, 0, id, s);
      UntouchedTrans(r0, o0, r1, o1, ram, owner, id, 0);
    }

    /** Free a process's page table and user memory: no panic happens, and exactly its pages become
        free. */
    method ProcFreepagetable(root: nat, sz: nat, ghost id: nat, ghost s: Space)
      requires Valid() && SpaceOk(ram, owner, id, s) && ROOT in s.node && root == s.node[ROOT]
      requires Region(owner, id, s, PgUp(sz))
      requires TOP in s.flat && TOP + 1 in s.flat
      modifies this
      ensures Valid() && owner == Disowned(old(owner), id) && Untouched(old(ram), old(owner), ram, owner, id, 0)
    {
      hide SpaceOk, Untouched, Region, FreeOk, DropRange;
      ghost var np := PgUp(sz);
      ghost var r0, o0 := ram, owner;
      DropHigh(s.flat, TOP + 1);
      NoneTaken(owner, id);
      var ok, s1 := Uvmunmap(root, (TOP + 1) * PGSIZE, 1, false, id, s, 0);
      RegionHigh(owner, owner, id, s, s1, np);
      ghost var r1, o1 := ram, owner;
      DropHigh(s1.flat, TOP);
      ghost var s2;
      ok, s2 := Uvmunmap(root, TOP * PGSIZE, 1, false, id, s1, 0);
      RegionHigh(owner, owner, id, s1, s2, np);
      UntouchedTrans(r0, o0, r1, o1, ram, owner, id, 0);
      ghost var r2, o2 := ram, owner;
      OnlyUser(ram, owner, id, s2, np);
      ok := Uvmfree(root, sz, id, s2);
      UntouchedTrans(r0, o0, r2, o2, ram, owner, id, 0);
    }

    /** Grow or shrink a process by `n` bytes, in the 32-bit arithmetic of `growproc`; -1 means no
        memory. Whatever happens, the user memory is exactly the pages of the new size, and the pages
        it keeps keep their contents. A sum that wraps around changes nothing and still returns 0. */
    method Growproc(root: nat, sz: nat, n: int, ghost id: nat, ghost s: Space)
      returns (r: int, sz': nat, ghost s': Space)
      requires Valid() && SpaceOk(ram, owner, id, s) && ROOT in s.node && root == s.node[ROOT]
      requires Region(owner, id, s, PgUp(sz)) && TOP in s.flat
      requires sz < 0x1_0000_0000 && -0x8000_0000 <= n < 0x8000_0000
      modifies this
      ensures Valid() && SpaceOk(ram, owner, id, s') && ROOT in s'.node && s'.node[ROOT] == root
      ensures Region(owner, id, s', PgUp(sz'))
      ensures Untouched(old(ram), old(owner), ram, owner, id, if sz' < sz then PgUp(sz') else PgUp(sz))
      ensures 0 <= sz + n < 0x1_0000_0000 ==> (r == 0 <==> sz' == sz + n) && (r == 0 || (r == -1 && n > 0))
      ensures sz + n < 0 || sz + n >= 0x1_0000_0000 ==> r == 0
      ensures r == -1 || sz + n < 0 || sz + n >= 0x1_0000_0000 ==>
                sz' == sz && s'.flat == s.flat && TookTables(old(owner), owner, id)
      ensures sz' > sz ==> Added(s, s', PgUp(sz), PgUp(sz')) && Zeros(ram, s', PgUp(sz), PgUp(sz'))
      ensures sz' < sz ==> s'.flat == DropRange(s.flat, PgUp(sz'), PgUp(sz))
      ensures sz' == sz ==> s'.flat == s.flat
      ensures SameHigh(s, s')
      ensures r == -1 <==> 0 <= sz + n < 0x1_0000_0000 && n > 0 && TooFew(|old(freelist)|, s, PgUp(sz), PgUp(sz + n))
    {
      hide SpaceOk, Untouched, TookTables, Region, FreeOk, Added, Zeros, DropRange, Paid, TooFew;
      r, sz', s' := 0, sz, s;
      RegionBound(owner, id, s, PgUp(sz));
      NothingTaken(ram, owner, id);
      UntouchedLess(ram, owner, ram, owner, id, MAXVPN, PgUp(sz));
      var newsz := (sz + n) % 0x1_0000_0000;
      if n > 0 {
        var got;
        got, s' := Uvmalloc(root, sz, newsz, id, s);
        if got.value == 0 {
          return -1, sz, s';
        }
        sz' := got.value;
        if newsz >= sz {
          PaidEnough(|old(freelist)|, |freelist|, s, s', PgUp(sz), PgUp(newsz));
          RegionBound(owner, id, s', PgUp(newsz));
          AddedHigh(s, s', PgUp(sz), PgUp(newsz));
        }
      } else if n < 0 {
        var got;
        got, s' := Uvmdealloc(root, sz, newsz, id, s, PgUp(sz));
        sz' := got.value;
        if newsz < sz {
          DroppedHigh(s, s', PgUp(newsz), PgUp(sz));
        }
      }
    }

    /** The memory side of `allocproc`: a trap frame, and a page table with no user memory. If memory
        runs out, all pages are owned as before. */
    method Allocproc(tr: nat, ghost id: nat) returns (root: nat, tf: nat, ghost s: Space)
      requires Valid() && Unheard(owner, id) && tr < MAXFRAME
      modifies this
      ensures Valid()
      ensures root == 0 <==> |old(freelist)| < 1 + |HIGH|
      ensures root != 0 ==> s.node.Keys == HIGH && |old(freelist)| == |freelist| + 1 + |HIGH|
      ensures root == 0 ==> owner == old(owner) && OthersKept(old(ram), old(owner), ram, owner, {id}, {})
      ensures root != 0 ==>
                && SpaceOk(ram, owner, id, s) && ROOT in s.node && s.node[ROOT] == root && Region(owner, id, s, 0)
                && Trapped(s, tf, tr) && tf in owner && old(owner)[tf].Free? && owner[tf].Kernel?
                && OthersKept(old(ram), old(owner), ram, owner, {id}, {tf})
    {
      hide SpaceOk, Untouched, Region, FreeOk, Pte, OthersKept;
      ghost var r0, o0 := ram, owner;
      root, s := 0, Space(map[], map[]);
      tf := Kalloc(Kernel);
      if tf == 0 {
        NothingTaken(ram, owner, id);
        KeptUntouched(ram, owner, ram, owner, id, MAXVPN);
        return;
      }
      ghost var r1 := ram;
      UnheardKernel(o0, id, tf);
      root, s := ProcPagetable(tf, tr, id);
      KeptTaking(r0, o0, r1, ram, owner, id, tf);
      if root == 0 {
        ghost var r2 := ram;
        var ok := Kfree(tf);
        assert owner == o0;
        NothingGiven(r2, o0, id, tf);
        KeptTrans(r0, o0, r2, o0[tf := Kernel], ram, owner, {id}, {tf});
        KeptFree(r0, o0, ram, id, tf);
      }
    }

    /** The memory of a forked child: a trap frame, a page table, and a copy of the parent's user
        memory. If memory runs out, all pages are owned as before. Nobody else is touched. */
    method ForkMemory(proot: nat, sz: nat, tr: nat, ghost pid: nat, ghost ps: Space, ghost cid: nat)
      returns (croot: nat, tf: nat, ghost cs: Space)
      requires Valid() && SpaceOk(ram, owner, pid, ps) && ROOT in ps.node && proot == ps.node[ROOT]
      requires Region(owner, pid, ps, PgUp(sz)) && Unheard(owner, cid) && pid != cid && tr < MAXFRAME
      modifies this
      ensures Valid() && SpaceOk(ram, owner, pid, ps) && Region(owner, pid, ps, PgUp(sz))
      ensures croot == 0 <==> |old(freelist)| < 1 + |HIGH| + Toll(HIGH, 0, PgUp(sz))
      ensures croot == 0 ==> owner == old(owner) && OthersKept(old(ram), old(owner), ram, owner, {cid}, {})
      ensures croot != 0 ==>
                && SpaceOk(ram, owner, cid, cs) && ROOT in cs.node && cs.node[ROOT] == croot
                && Region(owner, cid, cs, PgUp(sz)) && Copies(ram, ps, cs, PgUp(sz))
                && Trapped(cs, tf, tr) && tf in owner && old(owner)[tf].Free? && owner[tf].Kernel?
                && OthersKept(old(ram), old(owner), ram, owner, {cid}, {tf})
    {
      hide SpaceOk, Untouched, TookTables, Region, FreeOk, Added, Copies, Pte, OthersKept, Toll, Ways;
      ghost var r0, o0, np := ram, owner, PgUp(sz);
      RegionBound(owner, pid, ps, np);
      croot, tf, cs := Allocproc(tr, cid);
      KeptSpace(r0, o0, ram, owner, {cid}, if croot == 0 then {} else {tf}, pid, ps);
      KeptRegion(r0, o0, ram, owner, {cid}, if croot == 0 then {} else {tf}, pid, ps, np);
      if croot == 0 {
        return;
      }
      ghost var r2, o2, cs2 := ram, owner, cs;
      var r;
      r, cs := Uvmcopy(proot, croot, sz, pid, ps, cid, cs);
      UntouchedAt(r2, o2, ram, owner, cid, 0, tf);
      KeptMore(r0, o0, r2, o2, ram, owner, cid, tf);
      if r < 0 {
        ghost var r3, o3 := ram, owner;
        KeptGone(r0, o0, r3, o3, cid, tf);
        Freeproc(tf, croot, 0, cid, cs);
        KeptTrans(r0, o0, r3, o3, ram, owner, {cid}, {tf});
        KeptFree(r0, o0, ram, cid, tf);
        KeptSpace(r0, o0, ram, owner, {cid}, {}, pid, ps);
        KeptRegion(r0, o0, ram, owner, {cid}, {}, pid, ps, np);
        croot := 0;
        return;
      }
      AddedHigh(cs2, cs, 0, np);
    }

    /** `freeproc`: give back a process's trap frame, then its address space. Nobody else is touched. */
    method Freeproc(tf: nat, root: nat, sz: nat, ghost id: nat, ghost s: Space)
      requires Valid() && SpaceOk(ram, owner, id, s) && ROOT in s.node && root == s.node[ROOT]
      requires Region(owner, id, s, PgUp(sz))
      requires TOP in s.flat && TOP + 1 in s.flat && tf in owner && owner[tf].Kernel?
      modifies this
      ensures Valid() && owner == Disowned(old(owner)[tf := Free], id)
      ensures OthersKept(old(ram), old(owner), ram, owner, {id}, {tf})
    {
      hide SpaceOk, Untouched, Region, FreeOk, OthersKept, Disowned;
      ghost var r0, o0 := ram, owner;
      var ok := Kfree(tf);
      ghost var r1, o1 := ram, owner;
      NonTablePage(r0, r1, o0, o1, id, s, tf);
      RegionKernel(o0, o1, id, s, PgUp(sz), tf);
      ProcFreepagetable(root, sz, id, s);
      KeptGiving(r0, o0, r1, ram, owner, id, tf);
    }

    /** Take virtual page `n` away from the user; false is the panic of finding no page-table entry,
        which cannot happen to a mapped page. */
    method Uvmclear(root: nat, n: nat, ghost id: nat, ghost s: Space, ghost np: nat) returns (ok: bool, ghost s': Space)
      requires Valid() && SpaceOk(ram, owner, id, s) && ROOT in s.node && root == s.node[ROOT]
      requires Region(owner, id, s, np)
      modifies this
      ensures Valid() && SpaceOk(ram, owner, id, s') && ROOT in s'.node && s'.node[ROOT] == root && owner == old(owner)
      ensures Region(owner, id, s', np) && Untouched(old(ram), old(owner), ram, owner, id, MAXVPN)
      ensures ok <==> n < MAXVPN && Up(n, 1) in s.node
      ensures n in s.flat ==> ok && n in s'.flat && s'.flat == s.flat[n := s'.flat[n]] && !IsUser(s'.flat[n])
      ensures n in s.flat ==> s'.flat[n] == if IsUser(s.flat[n]) then s.flat[n] - PTE_U else s.flat[n]
      ensures n !in s.flat ==> s'.flat == s.flat
    {
      hide SpaceOk, Untouched, Up, TookTables, Region, FreeOk, IsValid, IsLeaf, IsUser;
      s' := s;
      NothingTaken(ram, owner, id);
      var w, s1 := Walk(root, n, false, id, s);
      if n >= MAXVPN || Up(n, 1) !in s.node {
        NotMapped(ram, owner, id, s, n);
      }
      if w.OutOfRange? || w.Missing? {
        return false, s;
      }
      ok := true;
      var e := GetPte(w.table, n, id, s);
      ZeroEntry();
      if IsUser(e) {
        ClearedUser(e);
        s' := SetPte(w.table, n, e - PTE_U, id, s);
        RegionFlags(owner, id, s, s', np, n, e - PTE_U);
      }
    }

    /** `walkaddr`: the physical page of virtual page `n`, or 0 if it is not mapped for the user. */
    method Walkaddr(root: nat, n: nat, ghost id: nat, ghost s: Space) returns (f: nat)
      requires Valid() && SpaceOk(ram, owner, id, s) && ROOT in s.node && root == s.node[ROOT]
      modifies this
      ensures ram == old(ram) && owner == old(owner) && freelist == old(freelist)
      ensures f == if n in s.flat && IsUser(s.flat[n]) then FrameOf(s.flat[n]) else 0
    {
      hide Word, Link, Hi, Lo, SpaceOk, Untouched, TookTables, Up, IsValid, IsLeaf, FreeOk, IsUser, FrameOf;
      var w, s' := Walk(root, n, false, id, s);
      if n >= MAXVPN || Up(n, 1) !in s.node {
        NotMapped(ram, owner, id, s, n);
      }
      if w.OutOfRange? || w.Missing? {
        return 0;
      }
      var e := GetPte(w.table, n, id, s);
      f := if IsValid(e) && IsUser(e) then FrameOf(e) else 0;
    }

    /** `loadseg`: read `sz` bytes of a file, which has the bytes `data` there, to the user memory from `va`
        on. None is the panic on a page that is not mapped, which happens exactly for a page beyond the user
        memory; false is a file that ends too early. */
    method Loadseg(root: nat, va: U64, data: seq<Words.Byte>, sz: nat, ghost id: nat, ghost s: Space,
                   ghost img: seq<Page>)
      returns (r: Option<bool>)
      requires Valid() && SpaceOk(ram, owner, id, s) && ROOT in s.node && root == s.node[ROOT] && HighHidden(s)
      requires Region(owner, id, s, |img|) && Shows(ram, s, img) && va % PGSIZE == 0 && sz + PGSIZE <= 0x1_0000_0000
      modifies this
      ensures Valid() && SpaceOk(ram, owner, id, s) && owner == old(owner) && freelist == old(freelist)
      ensures Untouched(old(ram), old(owner), ram, owner, id, 0)
      ensures r == None ==> sz > 0 && va + sz > |img| * PGSIZE
      ensures r == Some(true) ==> sz <= |data| && (sz == 0 || va + sz <= |img| * PGSIZE)
      ensures r == Some(false) ==> sz > |data|
      ensures r == Some(true) && va / PGSIZE + PgUp(sz) <= |img| ==>
                Shows(ram, s, Image.ReadIn(img, va / PGSIZE, data, sz, PgUp(sz)))
    {
      hide SpaceOk, Untouched, Region, FreeOk, Shows, Image.Patch, Image.Piece, IsUser, FrameOf, HighHidden;
      NothingTaken(ram, owner, id);
      UntouchedLess(ram, owner, ram, owner, id, MAXVPN, 0);
      var at, m := va / PGSIZE, 0;
      ghost var now := img;
      while m * PGSIZE < sz
        invariant (m > 0 ==> at + m <= |img|) && m <= PgUp(sz) && m * PGSIZE < sz + PGSIZE
        invariant m > 0 ==> (if sz < m * PGSIZE then sz else m * PGSIZE) <= |data|
        invariant |now| == |img| && (at + m <= |img| ==> now == Image.ReadIn(img, at, data, sz, m))
        invariant Valid() && SpaceOk(ram, owner, id, s) && owner == old(owner) && Shows(ram, s, now)
        invariant freelist == old(freelist)
        invariant Untouched(old(ram), old(owner), ram, owner, id, 0)
        decreases sz - m * PGSIZE
      {
        var f := Walkaddr(root, at + m, id, s);
        MappedUser(ram, owner, id, s, now, at + m, f);
        if f == 0 {
          return None;
        }
        var n := if sz - m * PGSIZE < PGSIZE then sz - m * PGSIZE else PGSIZE;
        var got := Image.Piece(data, sz, m);
        PieceLength(data, sz, m, n);
        ghost var r1 := ram;
        ShowsWritten(ram, owner, id, s, |img|, now, at + m, Image.Patch(ram[f], got));
        now := now[at + m := Image.Patch(ram[f], got)];
        ram := ram[f := Image.Patch(ram[f], got)];
        NonTablePage(r1, ram, owner, owner, id, s, f);
        DataWritten(r1, ram, owner, id, at + m, f);
        UntouchedTrans(old(ram), old(owner), r1, owner, ram, owner, id, 0);
        if |got| != n {
          return Some(false);
        }
        m := m + 1;
      }
      r := Some(true);
    }

    /** Load the segments into a fresh address space, growing it as they say; false is a failure. None of the
        panics on the way can happen: that of growing into the trap frame takes more physical memory than
        4 GB, and `loadseg` finds all its pages mapped. */
    method LoadSegments(root: nat, segs: seq<Image.Segment>, ghost id: nat, ghost s: Space, ghost r0: seq<Page>,
                        ghost o0: map<nat, Owner>)
      returns (ok: bool, sz: nat, ghost s': Space)
      requires Valid() && limit <= 0x10_0000 && SpaceOk(ram, owner, id, s) && ROOT in s.node && root == s.node[ROOT]
      requires Region(owner, id, s, 0)
      requires TOP in s.flat && TOP + 1 in s.flat && HighHidden(s) && Untouched(r0, o0, ram, owner, id, 0)
      modifies this
      ensures Valid() && SpaceOk(ram, owner, id, s') && ROOT in s'.node && s'.node[ROOT] == root
      ensures Region(owner, id, s', PgUp(sz)) && SameHigh(s, s') && Untouched(r0, o0, ram, owner, id, 0)
      ensures ok ==> Image.Loads(segs) && Paid(|old(freelist)|, |freelist|, s, s', 0, PgUp(sz))
      ensures !ok && Image.Loads(segs) ==> TooFew(|old(freelist)|, s, 0, PgUp(Image.SizeOf(segs)))
      ensures ok ==> Image.AllFine(segs) && sz == Image.SizeOf(segs) && Shows(ram, s', Image.Program(segs))
    {
      hide SpaceOk, Untouched, TookTables, Region, FreeOk, Added, Zeros, Shows, SameHigh, HighHidden, Image.Placed,
          Paid, TooFew;
      s', sz := s, 0;
      HighSame(s);
      ghost var img := [];
      ShowsNothing(ram, s);
      PaidNothing(|freelist|, s, 0);
      for i := 0 to |segs|
        invariant Valid() && SpaceOk(ram, owner, id, s') && ROOT in s'.node && s'.node[ROOT] == root
        invariant Region(owner, id, s', PgUp(sz)) && TOP in s'.flat && TOP + 1 in s'.flat && HighHidden(s')
        invariant SameHigh(s, s') && Untouched(r0, o0, ram, owner, id, 0)
        invariant Image.AllFine(segs[..i]) && sz == Image.SizeOf(segs[..i]) && |img| == PgUp(sz)
        invariant img == Image.Program(segs[..i]) && Shows(ram, s', img)
        invariant Image.Loads(segs[..i]) && Paid(|old(freelist)|, |freelist|, s, s', 0, PgUp(sz))
      {
        ghost var s1, sz1, free1 := s', sz, |freelist|;
        ok, sz, s', img := LoadOne(root, segs[i], sz, id, s', img, r0, o0);
        HighTwice(s, s1, s');
        if !ok {
          if Image.Loads(segs) {
            SizeGrows(segs, i);
            TooFewLater(|old(freelist)|, free1, s, s1, 0, PgUp(sz1), PgUp(Image.SizeOf(segs[..i + 1])),
                        PgUp(Image.SizeOf(segs)));
          }
          return;
        }
        OneMore(segs, i);
        PaidTwice(|old(freelist)|, free1, |freelist|, s, s1, s', 0, PgUp(sz1), PgUp(sz));
      }
      assert segs[..|segs|] == segs;
      ok := true;
    }

    /** One round of the loop: the segment's memory, and then its bytes. */
    method LoadOne(root: nat, seg: Image.Segment, sz: nat, ghost id: nat, ghost s: Space, ghost img: seq<Page>,
                   ghost r0: seq<Page>, ghost o0: map<nat, Owner>)
      returns (ok: bool, sz': nat, ghost s': Space, ghost img': seq<Page>)
      requires Valid() && limit <= 0x10_0000 && SpaceOk(ram, owner, id, s) && ROOT in s.node && root == s.node[ROOT]
      requires Region(owner, id, s, PgUp(sz)) && |img| == PgUp(sz) && Shows(ram, s, img)
      requires TOP in s.flat && TOP + 1 in s.flat && HighHidden(s) && Untouched(r0, o0, ram, owner, id, 0)
      modifies this
      ensures Valid() && SpaceOk(ram, owner, id, s') && ROOT in s'.node && s'.node[ROOT] == root
      ensures Region(owner, id, s', PgUp(sz')) && SameHigh(s, s') && Untouched(r0, o0, ram, owner, id, 0)
      ensures !ok && Image.Fine(seg) && Image.Max(sz, seg.vaddr + seg.memsz) > 0 ==>
                TooFew(|old(freelist)|, s, PgUp(sz), PgUp(Image.Max(sz, seg.vaddr + seg.memsz)))
      ensures ok ==> sz' > 0 && Paid(|old(freelist)|, |freelist|, s, s', PgUp(sz), PgUp(sz'))
      ensures ok ==>
                && Image.Fine(seg) && sz' == Image.Max(sz, seg.vaddr + seg.memsz) && img' == Image.Placed(img, seg)
                && |img'| == PgUp(sz') && Shows(ram, s', img')
    {
      hide SpaceOk, Untouched, TookTables, Region, FreeOk, Added, Zeros, Shows, SameHigh, HighHidden, Paid, TooFew;
      ok, sz', s', img' := false, sz, s, img;
      HighSame(s);
      if seg.memsz < seg.filesz {
        return;
      }
      if seg.vaddr + seg.memsz >= 0x1_0000_0000_0000_0000 {
        return;
      }
      var got;
      got, s' := GrowTo(root, sz, seg.vaddr + seg.memsz, id, s, img, r0, o0);
      if got.None? {
        assert false;
      }
      if got.value == 0 {
        return;
      }
      sz' := got.value;
      if seg.vaddr % PGSIZE != 0 {
        return;
      }
      img' := Image.Grown(img, PgUp(seg.vaddr + seg.memsz));
      HighTwice(s, s, s');
      RegionSmall(owner, id, s', PgUp(sz'), first, limit);
      SegmentMapped(seg, sz, sz', |img|, |img'|, limit - first);
      ghost var r1, o1 := ram, owner;
      var read := Loadseg(root, seg.vaddr, seg.data, seg.filesz % 0x1_0000_0000, id, s', img');
      UntouchedTrans(r0, o0, r1, o1, ram, owner, id, 0);
      if read.None? {
        assert false;
      }
      ok := read.value;
      if ok {
        img' := Image.Placed(img, seg);
      }
    }

    /** `uvmalloc` in a process's address space, keeping the account of what was taken since `o0` and of what
        the user memory holds. */
    method GrowTo(root: nat, sz: nat, newsz: nat, ghost id: nat, ghost s: Space, ghost img: seq<Page>,
                  ghost r0: seq<Page>, ghost o0: map<nat, Owner>)
      returns (r: Option<nat>, ghost s': Space)
      requires Valid() && SpaceOk(ram, owner, id, s) && ROOT in s.node && root == s.node[ROOT]
      requires Region(owner, id, s, PgUp(sz)) && |img| == PgUp(sz) && Shows(ram, s, img)
      requires TOP in s.flat && TOP + 1 in s.flat && Untouched(r0, o0, ram, owner, id, 0)
      modifies this
      ensures Valid() && SpaceOk(ram, owner, id, s') && ROOT in s'.node && s'.node[ROOT] == root
      ensures r.None? ==> newsz > TOP * PGSIZE && TOP <= limit - first
      ensures r.Some? ==> SameHigh(s, s') && Untouched(r0, o0, ram, owner, id, 0)
      ensures r.Some? && r.value == 0 ==>
                && Region(owner, id, s', PgUp(sz)) && sz <= newsz
                && (sz == newsz == 0 || TooFew(|old(freelist)|, s, PgUp(sz), PgUp(newsz)))
      ensures r.Some? && r.value != 0 ==>
                && r.value == Image.Max(sz, newsz) && Region(owner, id, s', PgUp(r.value))
                && Shows(ram, s', Image.Grown(img, PgUp(newsz)))
                && Paid(|old(freelist)|, |freelist|, s, s', PgUp(sz), PgUp(r.value))
    {
      hide SpaceOk, Untouched, TookTables, Region, FreeOk, Added, Zeros, Shows, Paid, TooFew;
      ghost var r1, o1 := ram, owner;
      RegionBound(owner, id, s, PgUp(sz));
      PaidNothing(|freelist|, s, PgUp(sz));
      r, s' := Uvmalloc(root, sz, newsz, id, s);
      if r.Some? {
        UntouchedLess(r1, o1, ram, owner, id, PgUp(sz), 0);
        UntouchedTrans(r0, o0, r1, o1, ram, owner, id, 0);
        if newsz >= sz && r.value != 0 {
          RegionBound(owner, id, s', PgUp(newsz));
          AddedHigh(s, s', PgUp(sz), PgUp(newsz));
          AddedSame(s, s', PgUp(sz), PgUp(newsz));
        }
        if r.value != 0 {
          ShowsKept(r1, o1, ram, owner, id, PgUp(sz), id, s, s', PgUp(sz), img);
          ShowsGrown(ram, s', img, PgUp(newsz));
        }
      }
    }

    /** The memory side of `exec`: build a new address space from the segments and a guarded stack
        page, then switch to it and free the old one. A failure, 0, gives back everything taken, so that
        all pages are owned as before. Nobody else is touched, and no panic happens. */
    method ExecMemory(oldroot: nat, oldsz: nat, tf: nat, tr: nat, segs: seq<Image.Segment>, argsFit: bool,
                      ghost oid: nat, ghost os: Space, ghost id: nat)
      returns (r: nat, sz: nat, ghost s: Space)
      requires Valid() && limit <= 0x10_0000
      requires SpaceOk(ram, owner, oid, os) && ROOT in os.node && oldroot == os.node[ROOT]
      requires Region(owner, oid, os, PgUp(oldsz)) && TOP in os.flat && TOP + 1 in os.flat
      requires Unheard(owner, id) && oid != id && tf < MAXFRAME && tr < MAXFRAME
      modifies this
      ensures Valid()
      ensures r != 0 <==> argsFit && Image.Loads(segs) && |old(freelist)| >= ExecCost(segs)
      ensures r == 0 ==>
                && owner == old(owner) && SpaceOk(ram, owner, oid, os) && Region(owner, oid, os, PgUp(oldsz))
                && Untouched(old(ram), old(owner), ram, owner, id, 0)
      ensures r != 0 ==>
                && SpaceOk(ram, owner, id, s) && ROOT in s.node && r == s.node[ROOT]
                && Region(owner, id, s, PgUp(sz)) && Trapped(s, tf, tr)
                && argsFit && Image.AllFine(segs) && sz == (PgUp(Image.SizeOf(segs)) + 2) * PGSIZE
                && Shows(ram, s, Image.Program(segs)) && !IsUser(s.flat[PgUp(sz) - 2])
                && Unheard(owner, oid) && OthersKept(old(ram), old(owner), ram, owner, {oid, id}, {})
    {
      hide SpaceOk, Untouched, TookTables, Region, FreeOk, Zeros, Pte, IsUser, Disowned, Unheard, OthersKept, Shows,
          Paid, TooFew, ExecCost, Image.Loads, Image.AllFine, Image.SizeOf, Image.Program;
      ghost var r0, o0 := ram, owner;
      var root;
      sz := 0;
      root, s := ProcPagetable(tf, tr, id);
      if root == 0 {
        OtherSpace(r0, o0, ram, owner, id, 0, oid, os);
        ExecHigh(segs);
        return 0, sz, s;
      }
      TrapHidden(s, tf, tr);
      ghost var s0, free0 := s, |freelist|;
      var ok;
      ok, sz, s := LoadSegments(root, segs, id, s, r0, o0);
      ghost var s1, free1 := s, |freelist|;
      if !ok {
        ExecShort(segs, free0, s0);
        Discard(root, sz, oldsz, id, s, oid, os, r0, o0);
        return 0, sz, s;
      }
      ghost var img := Image.Program(segs);
      var sz1;
      sz1, s := AddStack(root, sz, id, s, img, r0, o0);
      RegionSmall(owner, id, s, if sz1 == 0 then PgUp(sz) else PgUp(sz1), first, limit);
      ExecPaid(segs, free0, free1, s0, s1);
      if sz1 == 0 || !argsFit {
        sz := if sz1 == 0 then sz else sz1;
        Discard(root, sz, oldsz, id, s, oid, os, r0, o0);
        return 0, sz, s;
      }
      sz := sz1;
      SwitchTo(root, sz, oldroot, oldsz, oid, os, id, s, img, r0, o0);
      r := root;
    }

    /** Two more pages above the program: one out of the user's reach, and the stack. 0 is a failure. */
    method AddStack(root: nat, sz: nat, ghost id: nat, ghost s: Space, ghost img: seq<Page>, ghost r0: seq<Page>,
                    ghost o0: map<nat, Owner>)
      returns (sz': nat, ghost s': Space)
      requires Valid() && limit <= 0x10_0000 && SpaceOk(ram, owner, id, s) && ROOT in s.node && root == s.node[ROOT]
      requires Region(owner, id, s, PgUp(sz)) && |img| == PgUp(sz) && Shows(ram, s, img)
      requires TOP in s.flat && TOP + 1 in s.flat && Untouched(r0, o0, ram, owner, id, 0)
      modifies this
      ensures Valid() && SpaceOk(ram, owner, id, s') && ROOT in s'.node && s'.node[ROOT] == root
      ensures SameHigh(s, s') && Untouched(r0, o0, ram, owner, id, 0)
      ensures sz' == 0 ==> Region(owner, id, s', PgUp(sz)) && TooFew(|old(freelist)|, s, PgUp(sz), PgUp(sz) + 2)
      ensures sz' != 0 ==> !TooFew(|old(freelist)|, s, PgUp(sz), PgUp(sz) + 2)
      ensures sz' != 0 ==>
                && sz' == (PgUp(sz) + 2) * PGSIZE && Region(owner, id, s', PgUp(sz')) && Shows(ram, s', img)
                && PgUp(sz') == |img| + 2 && |img| in s'.flat && !IsUser(s'.flat[|img|])
    {
      hide SpaceOk, Untouched, Region, FreeOk, IsUser, Shows, SameHigh, Paid, TooFew;
      PgUpTwice(sz);
      var got;
      got, s' := GrowTo(root, PgUp(sz) * PGSIZE, PgUp(sz) * PGSIZE + 2 * PGSIZE, id, s, img, r0, o0);
      if got.None? {
        assert false;
      }
      sz' := got.value;
      if sz' != 0 {
        ShowsPrefix(ram, s', img, |img| + 2);
        PaidEnough(|old(freelist)|, |freelist|, s, s', PgUp(sz), PgUp(sz) + 2);
        ghost var s1 := s';
        s' := Guard(root, sz', id, s', img, r0, o0);
        HighTwice(s, s1, s');
      }
    }

    /** Take the page below the stack from the user. */
    method Guard(root: nat, sz: nat, ghost id: nat, ghost s: Space, ghost img: seq<Page>, ghost r0: seq<Page>,
                 ghost o0: map<nat, Owner>)
      returns (ghost s': Space)
      requires Valid() && SpaceOk(ram, owner, id, s) && ROOT in s.node && root == s.node[ROOT]
      requires Region(owner, id, s, PgUp(sz)) && PgUp(sz) == |img| + 2 && Shows(ram, s, img)
      requires Untouched(r0, o0, ram, owner, id, 0)
      modifies this
      ensures Valid() && SpaceOk(ram, owner, id, s') && ROOT in s'.node && s'.node[ROOT] == root
      ensures Region(owner, id, s', PgUp(sz)) && SameHigh(s, s') && Shows(ram, s', img)
      ensures Untouched(r0, o0, ram, owner, id, 0) && |img| in s'.flat && !IsUser(s'.flat[|img|])
    {
      hide SpaceOk, Untouched, Region, FreeOk, IsUser, Shows;
      ghost var r1, o1 := ram, owner;
      RegionLast(owner, id, s, PgUp(sz));
      var ok;
      ok, s' := Uvmclear(root, PgUp(sz) - 2, id, s, PgUp(sz));
      ShowsKept(r1, o1, ram, owner, id, MAXVPN, id, s, s', PgUp(sz), img);
      UntouchedLess(r1, o1, ram, owner, id, MAXVPN, 0);
      UntouchedTrans(r0, o0, r1, o1, ram, owner, id, 0);
    }

    /** Give back a half-built address space; the old one is as before. */
    method Discard(root: nat, sz: nat, ghost oldsz: nat, ghost id: nat, ghost s: Space, ghost oid: nat, ghost os: Space,
                   ghost r0: seq<Page>, ghost o0: map<nat, Owner>)
      requires Valid() && SpaceOk(ram, owner, id, s) && ROOT in s.node && root == s.node[ROOT]
      requires Region(owner, id, s, PgUp(sz))
      requires TOP in s.flat && TOP + 1 in s.flat && Unheard(o0, id) && Untouched(r0, o0, ram, owner, id, 0)
      requires SpaceOk(r0, o0, oid, os) && Region(o0, oid, os, PgUp(oldsz)) && oid != id
      modifies this
      ensures Valid() && owner == o0 && Untouched(r0, o0, ram, owner, id, 0) && SpaceOk(ram, owner, oid, os)
    {
      hide SpaceOk, Untouched, Region, FreeOk, Disowned, Unheard;
      ghost var r1, o1 := ram, owner;
      ProcFreepagetable(root, sz, id, s);
      UntouchedTrans(r0, o0, r1, o1, ram, owner, id, 0);
      AsBefore(r0, o0, ram, o1, owner, id);
      OtherSpace(r0, o0, ram, owner, id, 0, oid, os);
    }

    /** Free the old address space, which the new one does not depend on. */
    method SwitchTo(root: nat, sz: nat, oldroot: nat, oldsz: nat, ghost oid: nat, ghost os: Space, ghost id: nat,
                    ghost s: Space, ghost img: seq<Page>, ghost r0: seq<Page>, ghost o0: map<nat, Owner>)
      requires Valid() && SpaceOk(ram, owner, id, s) && ROOT in s.node && root == s.node[ROOT]
      requires Region(owner, id, s, PgUp(sz)) && oid != id
      requires SpaceOk(r0, o0, oid, os) && ROOT in os.node && oldroot == os.node[ROOT]
      requires Region(o0, oid, os, PgUp(oldsz))
      requires TOP in os.flat && TOP + 1 in os.flat && Untouched(r0, o0, ram, owner, id, 0)
      requires Shows(ram, s, img) && |img| <= PgUp(sz)
      modifies this
      ensures Valid() && SpaceOk(ram, owner, id, s) && Region(owner, id, s, PgUp(sz)) && Unheard(owner, oid)
      ensures Shows(ram, s, img)
      ensures OthersKept(r0, o0, ram, owner, {oid, id}, {})
    {
      hide SpaceOk, Untouched, Region, FreeOk, Disowned, Unheard, OthersKept, Shows;
      OtherSpace(r0, o0, ram, owner, id, 0, oid, os);
      OtherRegion(r0, o0, ram, owner, id, 0, oid, os, PgUp(oldsz));
      ghost var r1, o1 := ram, owner;
      ProcFreepagetable(oldroot, oldsz, oid, os);
      OtherSpace(r1, o1, ram, owner, oid, 0, id, s);
      OtherRegion(r1, o1, ram, owner, oid, 0, id, s, PgUp(sz));
      ShowsKept(r1, o1, ram, owner, oid, 0, id, s, s, PgUp(sz), img);
      DisownedUnheard(o1, oid);
      KeptBoth(r0, o0, r1, o1, ram, owner, id, oid);
      assert {id, oid} == {oid, id};
    }
  }
}
