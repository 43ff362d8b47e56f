/** Sv39 page tables: three levels of 512-entry pages standing for one flat map from virtual page
    numbers to entries, and the ownership of every physical page.

    A page is free, the kernel's, a table page at one place of one address space, or the data page of
    one virtual page. */
module PageTable {
  type U64 = x: int | 0 <= x < 0x1_0000_0000_0000_0000
  type Entries = s: seq<U64> | |s| == 512 witness seq(512, _ => 0)

  /** A physical page, as 512 words. */
  datatype Page = Page(w: Entries)

  function AllWords(x: U64): Page {
    Page(seq(512, _ => x))
  }

  /** Physical page numbers stay below this, so an entry fits 64 bits. */
  const MAXFRAME: nat := 0x1000_0000_0000

  /** Virtual page numbers below `MAXVA`. */
  const MAXVPN: nat := 0x400_0000

  const PTE_V: nat := 1
  const PTE_R: nat := 2
  const PTE_W: nat := 4
  const PTE_X: nat := 8
  const PTE_U: nat := 16

  // ----- entries -----

  predicate IsValid(e: U64) {
    e % 2 == 1
  }

  /** Some of the R, W, X bits is set. */
  predicate IsLeaf(e: U64) {
    e / 2 % 8 != 0
  }

  predicate IsUser(e: U64) {
    e / 16 % 2 == 1
  }

  function FrameOf(e: U64): nat {
    e / 1024
  }

  function FlagsOf(e: U64): nat {
    e % 1024
  }

  /** The entry for page `f` with flag bits `flags`. */
  function Pte(f: nat, flags: nat): (e: U64)
    requires f < MAXFRAME && flags < 1024
    ensures FrameOf(e) == f && FlagsOf(e) == flags
  {
    f * 1024 + flags
  }

  /** An entry pointing to the table page `f`. */
  function Link(f: nat): (e: U64)
    ensures f < MAXFRAME ==> IsValid(e) && !IsLeaf(e) && FrameOf(e) == f
  {
    LinkBits(f);
    if f < MAXFRAME then Pte(f, PTE_V) else 0
  }

  lemma LinkBits(f: nat)
    ensures (f * 1024 + 1) % 2 == 1 && (f * 1024 + 1) / 2 % 8 == 0
  {
    assert (f * 1024 + 1) / 2 == 8 * (f * 64);
  }

  // ----- nine-bit indices -----

  function Hi(n: nat): nat {
    n / 512
  }

  function Lo(n: nat): (r: nat)
    ensures r < 512
  {
    n % 512
  }

  lemma HiLo(n: nat, m: nat)
    ensures Hi(n) == Hi(m) && Lo(n) == Lo(m) ==> n == m
  {
  }

  // ----- a page table as a tree -----

  /** A place in the tree: the root is at level 3, the pages of level-0 entries at level 1, and
      what a level-0 entry maps at level 0. The key is the virtual page number's leading bits. */
  datatype Place = Place(level: nat, key: nat)

  const ROOT: Place := Place(3, 0)

  function Parent(c: Place): Place {
    Place(c.level + 1, Hi(c.key))
  }

  /** The place at `level` on the way to virtual page `n`. */
  function Up(n: nat, level: nat): Place
    decreases level
  {
    if level == 0 then Place(0, n) else Parent(Up(n, level - 1))
  }

  /** One address space: the page at each place of its tree, and the flat map from virtual page
      number to entry. */
  datatype Space = Space(node: map<Place, nat>, flat: map<nat, U64>)

  /** What a physical page is used for. */
  datatype Owner = Free | Table(id: nat, place: Place) | Data(id: nat, n: nat) | Kernel

  predicate Mine(o: Owner, id: nat) {
    (o.Table? || o.Data?) && o.id == id
  }

  function Word(ram: seq<Page>, t: nat, i: nat): U64 {
    if t < |ram| && i < 512 then ram[t].w[i] else 0
  }

  /** The entry for place `c` in its parent's page. */
  function Expect(s: Space, c: Place): U64 {
    if c.level == 0 then if c.key in s.flat then s.flat[c.key] else 0
    else if c in s.node then Link(s.node[c]) else 0
  }

  predicate WordOk(ram: seq<Page>, s: Space, c: Place) {
    Parent(c) in s.node ==> Word(ram, s.node[Parent(c)], Lo(c.key)) == Expect(s, c)
  }

  predicate FlatOk(s: Space, n: nat)
    requires n in s.flat
  {
    n < MAXVPN && Parent(Place(0, n)) in s.node && IsValid(s.flat[n]) && IsLeaf(s.flat[n])
  }

  /** The page at place `p` is owned as such, and its parent is in the tree. */
  predicate NodeOk(owner: map<nat, Owner>, id: nat, s: Space, p: Place)
    requires p in s.node
  {
    && 1 <= p.level <= 3 && (p.level == 3 ==> p == ROOT) && (p.level < 3 ==> Parent(p) in s.node)
    && s.node[p] in owner && owner[s.node[p]] == Table(id, p)
  }

  /** A table page of the address space is in its tree. */
  predicate NoStray(owner: map<nat, Owner>, id: nat, s: Space, f: nat)
    requires f in owner
  {
    owner[f].Table? && owner[f].id == id ==> owner[f].place in s.node && s.node[owner[f].place] == f
  }

  predicate InRam(ram: seq<Page>, owner: map<nat, Owner>) {
    |ram| <= MAXFRAME && forall f | f in owner :: 0 < f < |ram|
  }

  predicate Owned(owner: map<nat, Owner>, id: nat, s: Space) {
    && ROOT in s.node
    && (forall p | p in s.node :: NodeOk(owner, id, s, p))
    && (forall f: nat | f in owner :: NoStray(owner, id, s, f))
    && forall n: nat | n in s.flat :: FlatOk(s, n)
  }

  /** The pages in `ram` form the tree: unshared, and its entries are the links and the flat map. */
  ghost predicate SpaceOk(ram: seq<Page>, owner: map<nat, Owner>, id: nat, s: Space) {
    InRam(ram, owner) && Owned(owner, id, s) && forall c: Place :: WordOk(ram, s, c)
  }

  /** One step down: the entry on the page of `c`'s parent. */
  lemma Descend(ram: seq<Page>, owner: map<nat, Owner>, id: nat, s: Space, c: Place)
    requires SpaceOk(ram, owner, id, s) && Parent(c) in s.node
    ensures s.node[Parent(c)] in owner && 0 < s.node[Parent(c)] < |ram|
    ensures owner[s.node[Parent(c)]] == Table(id, Parent(c))
    ensures Word(ram, s.node[Parent(c)], Lo(c.key)) == Expect(s, c)
    ensures c in s.node ==> 1 <= c.level <= 3 && s.node[c] in owner && 0 < s.node[c] < |ram|
  {
    assert WordOk(ram, s, c);
    assert NodeOk(owner, id, s, Parent(c));
    assert c in s.node ==> NodeOk(owner, id, s, c);
  }

  function StoreWord(ram: seq<Page>, t: nat, i: nat, e: U64): (r: seq<Page>)
    requires t < |ram| && i < 512
    ensures |r| == |ram|
  {
    ram[t := Page(ram[t].w[i := e])]
  }

  lemma Stored(ram: seq<Page>, t: nat, i: nat, e: U64, u: nat, j: nat)
    requires t < |ram| && i < 512
    ensures Word(StoreWord(ram, t, i, e), u, j) == if u == t && j == i then e else Word(ram, u, j)
  {
  }

  lemma ZeroPage(ram: seq<Page>, f: nat, j: nat)
    requires f < |ram| && ram[f] == AllWords(0)
    ensures Word(ram, f, j) == 0
  {
  }

  /** Storing the entry of place `c` leaves every other entry of the tree alone. */
  lemma StoreAt(ram: seq<Page>, owner: map<nat, Owner>, id: nat, s: Space, c: Place, e: U64, d: Place)
    requires SpaceOk(ram, owner, id, s) && Parent(c) in s.node && s.node[Parent(c)] < |ram| && Parent(d) in s.node
    ensures var ram' := StoreWord(ram, s.node[Parent(c)], Lo(c.key), e);
            Word(ram', s.node[Parent(d)], Lo(d.key)) == if d == c then e else Expect(s, d)
  {
    hide Word, StoreWord;
    var t := s.node[Parent(c)];
    Stored(ram, t, Lo(c.key), e, s.node[Parent(d)], Lo(d.key));
    assert WordOk(ram, s, d);
    assert NodeOk(owner, id, s, Parent(c)) && NodeOk(owner, id, s, Parent(d));
    HiLo(c.key, d.key);
  }

  lemma AddOwned(owner: map<nat, Owner>, owner': map<nat, Owner>, id: nat, s: Space, s': Space, c: Place, f: nat)
    requires Owned(owner, id, s) && 1 <= c.level <= 2 && c !in s.node && Parent(c) in s.node
    requires f in owner && !owner[f].Table? && owner' == owner[f := Table(id, c)] && s' == s.(node := s.node[c := f])
    ensures Owned(owner', id, s')
  {
    hide Hi, Lo;
    forall p | p in s'.node
      ensures NodeOk(owner', id, s', p)
    {
      assert p in s.node ==> NodeOk(owner, id, s, p);
    }
    forall g: nat | g in owner'
      ensures NoStray(owner', id, s', g)
    {
      assert NoStray(owner, id, s, g);
    }
    forall n: nat | n in s'.flat
      ensures FlatOk(s', n)
    {
      assert FlatOk(s, n);
    }
  }

  /** Linking a zeroed page into a missing place of the tree changes no mapping. */
  lemma AddTable(ram: seq<Page>, ram': seq<Page>, owner: map<nat, Owner>, owner': map<nat, Owner>, id: nat, s: Space,
                 s': Space, c: Place, f: nat)
    requires SpaceOk(ram, owner, id, s) && 1 <= c.level <= 2 && c !in s.node && Parent(c) in s.node
    requires s.node[Parent(c)] < |ram|
    requires f in owner && !owner[f].Table? && owner' == owner[f := Table(id, c)] && f < |ram| && ram[f] == AllWords(0)
    requires ram' == StoreWord(ram, s.node[Parent(c)], Lo(c.key), Link(f)) && s' == s.(node := s.node[c := f])
    ensures SpaceOk(ram', owner', id, s')
  {
    hide Word, StoreWord, Link, Hi, Lo;
    AddOwned(owner, owner', id, s, s', c, f);
    forall d: Place
      ensures WordOk(ram', s', d)
    {
      if Parent(d) == c {
        assert NodeOk(owner, id, s, Parent(c));
        ZeroPage(ram, f, Lo(d.key));
        Stored(ram, s.node[Parent(c)], Lo(c.key), Link(f), f, Lo(d.key));
        NoChild(owner, id, s, d);
      } else if Parent(d) in s.node {
        StoreAt(ram, owner, id, s, c, Link(f), d);
      }
    }
  }

  /** Below a missing place there is nothing. */
  lemma NoChild(owner: map<nat, Owner>, id: nat, s: Space, d: Place)
    requires Owned(owner, id, s) && Parent(d) !in s.node && d.level < 3
    ensures d !in s.node && Expect(s, d) == 0
  {
    assert d in s.node ==> NodeOk(owner, id, s, d);
    assert d.level == 0 && d.key in s.flat ==> FlatOk(s, d.key);
  }

  /** An entry that may be stored at level 0: none, or a leaf. */
  predicate LeafEntry(e: U64) {
    e == 0 || (IsValid(e) && IsLeaf(e))
  }

  function SetFlat(flat: map<nat, U64>, n: nat, e: U64): map<nat, U64> {
    if e == 0 then flat - {n} else flat[n := e]
  }

  /** Storing a level-0 entry changes exactly that one mapping. */
  lemma LeafStore(ram: seq<Page>, ram': seq<Page>, owner: map<nat, Owner>, id: nat, s: Space, s': Space, n: nat, e: U64)
    requires SpaceOk(ram, owner, id, s) && n < MAXVPN && LeafEntry(e)
    requires var p := Parent(Place(0, n));
             p in s.node && s.node[p] < |ram| && ram' == StoreWord(ram, s.node[p], Lo(n), e)
    requires s' == s.(flat := SetFlat(s.flat, n, e))
    ensures SpaceOk(ram', owner, id, s')
  {
    hide Word, StoreWord, Link, Hi, Lo, IsValid, IsLeaf;
    forall p | p in s'.node
      ensures NodeOk(owner, id, s', p)
    {
      assert NodeOk(owner, id, s, p);
    }
    forall f: nat | f in owner
      ensures NoStray(owner, id, s', f)
    {
      assert NoStray(owner, id, s, f);
    }
    forall m: nat | m in s'.flat
      ensures FlatOk(s', m)
    {
      assert m in s.flat ==> FlatOk(s, m);
    }
    forall d: Place
      ensures WordOk(ram', s', d)
    {
      if Parent(d) in s.node {
        StoreAt(ram, owner, id, s, Place(0, n), e, d);
      }
    }
  }

  // ----- what others own -----

  /** Owned, but neither a table page of address space `id` nor its data page for virtual page `np`
      or above. */
  predicate Elsewhere(o: Owner, id: nat, np: nat) {
    !o.Free? && !(o.Table? && o.id == id) && !(o.Data? && o.id == id && np <= o.n)
  }

  predicate Spared(ram: seq<Page>, owner: map<nat, Owner>, ram': seq<Page>, owner': map<nat, Owner>, id: nat, np: nat,
                   f: nat)
    requires f in owner && f in owner' && |ram| == |ram'|
  {
    Elsewhere(owner[f], id, np) || Elsewhere(owner'[f], id, np) ==>
      owner'[f] == owner[f] && (f < |ram| ==> ram'[f] == ram[f])
  }

  /** Only free pages, table pages of address space `id` and its data pages from virtual page `np`
      on have changed hands or contents. */
  predicate Untouched(ram: seq<Page>, owner: map<nat, Owner>, ram': seq<Page>, owner': map<nat, Owner>, id: nat,
                      np: nat) {
    && |ram| == |ram'| && owner.Keys == owner'.Keys
    && forall f: nat | f in owner :: Spared(ram, owner, ram', owner', id, np, f)
  }

  lemma UntouchedTrans(r0: seq<Page>, o0: map<nat, Owner>, r1: seq<Page>, o1: map<nat, Owner>, r2: seq<Page>,
                       o2: map<nat, Owner>, id: nat, np: nat)
    requires Untouched(r0, o0, r1, o1, id, np) && Untouched(r1, o1, r2, o2, id, np)
    ensures Untouched(r0, o0, r2, o2, id, np)
  {
    forall f: nat | f in o0
      ensures Spared(r0, o0, r2, o2, id, np, f)
    {
      assert Spared(r0, o0, r1, o1, id, np, f) && Spared(r1, o1, r2, o2, id, np, f);
    }
  }

  lemma UntouchedLess(ram: seq<Page>, owner: map<nat, Owner>, ram': seq<Page>, owner': map<nat, Owner>, id: nat,
                      np: nat, less: nat)
    requires Untouched(ram, owner, ram', owner', id, np) && less <= np
    ensures Untouched(ram, owner, ram', owner', id, less)
  {
    forall f: nat | f in owner
      ensures Spared(ram, owner, ram', owner', id, less, f)
    {
      assert Spared(ram, owner, ram', owner', id, np, f);
    }
  }

  /** Another address space is as it was. */
  lemma OtherSpace(ram: seq<Page>, owner: map<nat, Owner>, ram': seq<Page>, owner': map<nat, Owner>, id: nat, np: nat,
                   other: nat, s: Space)
    requires SpaceOk(ram, owner, other, s) && Untouched(ram, owner, ram', owner', id, np) && other != id
    ensures SpaceOk(ram', owner', other, s)
  {
    hide Hi, Lo, Link;
    forall p | p in s.node
      ensures NodeOk(owner', other, s, p) && ram'[s.node[p]] == ram[s.node[p]]
    {
      assert NodeOk(owner, other, s, p) && Spared(ram, owner, ram', owner', id, np, s.node[p]);
    }
    forall f: nat | f in owner'
      ensures NoStray(owner', other, s, f)
    {
      assert NoStray(owner, other, s, f) && Spared(ram, owner, ram', owner', id, np, f);
    }
    forall c: Place
      ensures WordOk(ram', s, c)
    {
      assert WordOk(ram, s, c);
    }
  }
}
