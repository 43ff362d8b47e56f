/** The user-level allocator: a circular free list in address order. Addresses and sizes are in units
    of one header. */
module Umalloc {
  import opened Basics
  import opened Words

  /** The static header the ring starts from; everything `sbrk` returns lies above it. */
  const BASE: nat := 1

  // ----- blocks -----

  /** Unit `u` is part of block `a`. */
  predicate Holds(own: map<nat, nat>, a: nat, u: nat) {
    u in own && own[u] == a
  }

  predicate BlockOk(blk: map<nat, nat>, own: map<nat, nat>, a: nat)
    requires a in blk
  {
    BASE < a && 0 < blk[a] && forall u: nat | a <= u < a + blk[a] :: Holds(own, a, u)
  }

  predicate UnitOk(blk: map<nat, nat>, own: map<nat, nat>, u: nat)
    requires u in own
  {
    own[u] in blk && own[u] <= u < own[u] + blk[own[u]]
  }

  /** The blocks, free and allocated, tile the memory obtained so far: `own` maps every unit of it to
      the one block that holds it. */
  predicate Tiled(blk: map<nat, nat>, own: map<nat, nat>) {
    (forall a | a in blk :: BlockOk(blk, own, a)) && forall u | u in own :: UnitOk(blk, own, u)
  }

  lemma Disjoint(blk: map<nat, nat>, own: map<nat, nat>, a: nat, b: nat)
    requires Tiled(blk, own) && a in blk && b in blk && a < b
    ensures a + blk[a] <= b
  {
    assert BlockOk(blk, own, a) && BlockOk(blk, own, b);
    assert b < a + blk[a] ==> Holds(own, a, b);
    assert Holds(own, b, b);
  }

  /** Block `b` joins block `a`, which ends where `b` starts. */
  function Joined(own: map<nat, nat>, a: nat, b: nat): map<nat, nat> {
    map u | u in own :: if own[u] == b then a else own[u]
  }

  lemma JoinTiled(blk: map<nat, nat>, own: map<nat, nat>, a: nat, b: nat)
    requires Tiled(blk, own) && a in blk && b in blk && a + blk[a] == b
    ensures Tiled((blk - {b})[a := blk[a] + blk[b]], Joined(own, a, b))
  {
    var blk', own' := (blk - {b})[a := blk[a] + blk[b]], Joined(own, a, b);
    assert BlockOk(blk, own, a) && BlockOk(blk, own, b);
    forall c | c in blk'
      ensures BlockOk(blk', own', c)
    {
      assert BlockOk(blk, own, c);
      forall u: nat | c <= u < c + blk'[c]
        ensures Holds(own', c, u)
      {
        assert c == a && b <= u ==> Holds(own, b, u);
        assert !(c == a && b <= u) ==> Holds(own, c, u);
      }
    }
    forall u | u in own'
      ensures UnitOk(blk', own', u)
    {
      assert UnitOk(blk, own, u);
    }
  }

  /** The units of block `a` from `b` on become a block of their own. */
  function Split(own: map<nat, nat>, a: nat, b: nat): map<nat, nat> {
    map u | u in own :: if own[u] == a && b <= u then b else own[u]
  }

  lemma SplitTiled(blk: map<nat, nat>, own: map<nat, nat>, a: nat, b: nat, n: nat)
    requires Tiled(blk, own) && a in blk && 0 < n < blk[a] && b == a + blk[a] - n
    ensures b !in blk && Tiled(blk[a := blk[a] - n][b := n], Split(own, a, b))
  {
    var blk', own' := blk[a := blk[a] - n][b := n], Split(own, a, b);
    assert BlockOk(blk, own, a) && Holds(own, a, b);
    assert b in blk ==> BlockOk(blk, own, b) && Holds(own, b, b);
    forall c | c in blk'
      ensures BlockOk(blk', own', c)
    {
      assert c in blk ==> BlockOk(blk, own, c);
      forall u: nat | c <= u < c + blk'[c]
        ensures Holds(own', c, u)
      {
        assert Holds(own, if c == b then a else c, u);
      }
    }
    forall u | u in own'
      ensures UnitOk(blk', own', u)
    {
      assert UnitOk(blk, own, u);
    }
  }

  predicate Within(u: nat, a: nat, n: nat) {
    a <= u < a + n
  }

  /** Fresh memory from `a` on becomes a block. */
  function Extend(own: map<nat, nat>, a: nat, n: nat): map<nat, nat> {
    own + map u: nat | a <= u < a + n && Within(u, a, n) :: a
  }

  lemma ExtendTiled(blk: map<nat, nat>, own: map<nat, nat>, a: nat, n: nat)
    requires Tiled(blk, own) && BASE < a && 0 < n && forall u: nat | Within(u, a, n) :: u !in own
    ensures a !in blk && Tiled(blk[a := n], Extend(own, a, n))
  {
    var blk', own' := blk[a := n], Extend(own, a, n);
    assert Within(a, a, n);
    assert a in blk ==> BlockOk(blk, own, a) && Holds(own, a, a);
    forall c | c in blk'
      ensures BlockOk(blk', own', c)
    {
      assert c in blk ==> BlockOk(blk, own, c);
      forall u: nat | c <= u < c + blk'[c]
        ensures Holds(own', c, u)
      {
        if c == a {
          assert Within(u, a, n);
        } else {
          assert Holds(own, c, u);
        }
      }
    }
    forall u | u in own'
      ensures UnitOk(blk', own', u)
    {
      assert u in own ==> UnitOk(blk, own, u);
    }
  }

  // ----- the ring of free blocks -----

  /** The size of the block at `a`; the base header has size 0. */
  function Sz(blk: map<nat, nat>, a: nat): nat {
    if a in blk then blk[a] else 0
  }

  predicate RingAt(ring: seq<nat>, blk: map<nat, nat>, k: nat)
    requires 1 <= k < |ring|
  {
    ring[k] in blk && ring[k - 1] + Sz(blk, ring[k - 1]) < ring[k]
  }

  /** In address order from the base, and no two free blocks touch. */
  predicate RingOk(ring: seq<nat>, blk: map<nat, nat>) {
    |ring| >= 1 && ring[0] == BASE && BASE !in blk && forall k: nat | 1 <= k < |ring| :: RingAt(ring, blk, k)
  }

  lemma {:induction false} Sorted(ring: seq<nat>, blk: map<nat, nat>, j: nat, k: nat)
    requires RingOk(ring, blk) && j < k < |ring|
    ensures ring[j] + Sz(blk, ring[j]) < ring[k] && ring[k] in blk
  {
    assert RingAt(ring, blk, k);
    if j < k - 1 {
      Sorted(ring, blk, j, k - 1);
    }
  }

  function NextIx(ring: seq<nat>, k: nat): nat {
    if k + 1 < |ring| then k + 1 else 0
  }

  predicate LinkAt(ptr: map<nat, nat>, ring: seq<nat>, k: nat)
    requires k < |ring|
  {
    ring[k] in ptr && ptr[ring[k]] == ring[NextIx(ring, k)]
  }

  predicate Links(ptr: map<nat, nat>, ring: seq<nat>) {
    forall k: nat | k < |ring| :: LinkAt(ptr, ring, k)
  }

  predicate Sizes(size: map<nat, nat>, blk: map<nat, nat>) {
    BASE in size && size[BASE] == 0 && forall a | a in blk :: a in size && size[a] == blk[a]
  }

  /** The allocated blocks: those not on the ring. */
  function Live(ring: seq<nat>, blk: map<nat, nat>): map<nat, nat> {
    map a | a in blk && a !in ring :: blk[a]
  }

  /** `bp`, a block not on the ring, belongs after its element `j`. */
  predicate Place(ring: seq<nat>, blk: map<nat, nat>, bp: nat, j: nat) {
    bp in blk && bp !in ring && j < |ring| && ring[j] < bp && (j + 1 < |ring| ==> bp < ring[j + 1])
  }

  /** Blocks do not overlap, so `bp` fits between its neighbours. */
  lemma PlaceFits(ring: seq<nat>, blk: map<nat, nat>, own: map<nat, nat>, bp: nat, j: nat)
    requires Tiled(blk, own) && RingOk(ring, blk) && Place(ring, blk, bp, j)
    ensures ring[j] + Sz(blk, ring[j]) <= bp && (j + 1 < |ring| ==> bp + blk[bp] <= ring[j + 1])
  {
    if j > 0 {
      assert RingAt(ring, blk, j);
      Disjoint(blk, own, ring[j], bp);
    }
    if j + 1 < |ring| {
      assert RingAt(ring, blk, j + 1);
      Disjoint(blk, own, bp, ring[j + 1]);
    }
  }

  function Without(ring: seq<nat>, k: nat): seq<nat>
    requires k < |ring|
  {
    ring[..k] + ring[k + 1..]
  }

  function With(ring: seq<nat>, j: nat, bp: nat): seq<nat>
    requires j < |ring|
  {
    ring[..j + 1] + [bp] + ring[j + 1..]
  }

  lemma {:induction false} NoRepeats(ring: seq<nat>, blk: map<nat, nat>, j: nat, k: nat)
    requires RingOk(ring, blk) && j < |ring| && k < |ring| && ring[j] == ring[k]
    ensures j == k
  {
    if j < k {
      Sorted(ring, blk, j, k);
    } else if k < j {
      Sorted(ring, blk, k, j);
    }
  }

  /** `bp` touches the free block after it and takes it over. */
  lemma JoinNext(ring: seq<nat>, blk: map<nat, nat>, bp: nat, j: nat)
    requires RingOk(ring, blk) && Place(ring, blk, bp, j) && j + 1 < |ring| && ring[j + 1] in blk
    requires bp + blk[bp] == ring[j + 1]
    ensures var nx := ring[j + 1];
            var ring', blk' := Without(ring, j + 1), (blk - {nx})[bp := blk[bp] + blk[nx]];
            && RingOk(ring', blk') && Place(ring', blk', bp, j) && (j + 1 < |ring'| ==> bp + blk'[bp] < ring'[j + 1])
            && Live(ring', blk') == Live(ring, blk)[bp := blk'[bp]]
            && Sz(blk', ring'[j]) == Sz(blk, ring[j])
  {
    assert RingAt(ring, blk, j + 1);
    var nx := ring[j + 1];
    var ring', blk' := Without(ring, j + 1), (blk - {nx})[bp := blk[bp] + blk[nx]];
    assert j + 2 < |ring| ==> RingAt(ring, blk, j + 2);
    forall k: nat | 1 <= k < |ring'|
      ensures RingAt(ring', blk', k)
    {
      assert RingAt(ring, blk, if k <= j then k else k + 1);
      if k <= j {
        Sorted(ring, blk, k, j + 1);
        Sorted(ring, blk, k - 1, j + 1);
      } else {
        Sorted(ring, blk, j + 1, k + 1);
        if k > j + 1 {
          Sorted(ring, blk, j + 1, k);
        } else if j > 0 {
          Sorted(ring, blk, j, j + 1);
        }
      }
    }
    forall a | a in blk'
      ensures a in ring' <==> a in ring
    {
      assert a in ring ==> exists k: nat :: k < |ring| && ring[k] == a;
      if k: nat :| k < |ring| && ring[k] == a {
        assert ring'[if k <= j then k else k - 1] == a;
      }
    }
  }

  /** `bp`, which touches the free block before it, becomes part of that one. */
  lemma JoinPrev(ring: seq<nat>, blk: map<nat, nat>, bp: nat, j: nat)
    requires RingOk(ring, blk) && Place(ring, blk, bp, j) && ring[j] in blk && ring[j] + blk[ring[j]] == bp
    requires j + 1 < |ring| ==> bp + blk[bp] < ring[j + 1]
    ensures var blk' := (blk - {bp})[ring[j] := blk[ring[j]] + blk[bp]];
            RingOk(ring, blk') && Live(ring, blk') == Live(ring, blk) - {bp}
  {
    var blk' := (blk - {bp})[ring[j] := blk[ring[j]] + blk[bp]];
    forall k: nat | 1 <= k < |ring|
      ensures RingAt(ring, blk', k)
    {
      assert RingAt(ring, blk, k);
      if ring[k - 1] == ring[j] {
        NoRepeats(ring, blk, k - 1, j);
      }
    }
  }

  /** `bp` touches no free block and goes on the ring. */
  lemma InsertAfter(ring: seq<nat>, blk: map<nat, nat>, bp: nat, j: nat)
    requires RingOk(ring, blk) && Place(ring, blk, bp, j) && ring[j] + Sz(blk, ring[j]) < bp
    requires j + 1 < |ring| ==> bp + blk[bp] < ring[j + 1]
    ensures RingOk(With(ring, j, bp), blk) && Live(With(ring, j, bp), blk) == Live(ring, blk) - {bp}
  {
    var ring' := With(ring, j, bp);
    forall k: nat | 1 <= k < |ring'|
      ensures RingAt(ring', blk, k)
    {
      if k <= j {
        assert RingAt(ring, blk, k);
      } else if k > j + 1 {
        assert RingAt(ring, blk, k - 1);
      }
    }
    forall a
      ensures a in ring' <==> a in ring || a == bp
    {
      WithHas(ring, j, bp, a);
    }
  }

  lemma WithHas(ring: seq<nat>, j: nat, bp: nat, a: nat)
    requires j < |ring|
    ensures a in With(ring, j, bp) <==> a in ring || a == bp
  {
    var ring' := With(ring, j, bp);
    assert ring == ring[..j + 1] + ring[j + 1..];
  }

  // ----- the links -----

  predicate LinksBut(ptr: map<nat, nat>, ring: seq<nat>, j: nat) {
    forall k: nat | k < |ring| && k != j :: LinkAt(ptr, ring, k)
  }

  /** Taking element `j + 1` off the ring: only its predecessor's link is wrong now. */
  lemma LinksWithout(ptr: map<nat, nat>, ring: seq<nat>, j: nat)
    requires Links(ptr, ring) && j + 1 < |ring|
    ensures var ring' := Without(ring, j + 1);
            LinksBut(ptr, ring', j) && ring[j + 1] in ptr && ptr[ring[j + 1]] == ring'[NextIx(ring', j)]
  {
    var ring' := Without(ring, j + 1);
    assert LinkAt(ptr, ring, j + 1);
    forall k: nat | k < |ring'| && k != j
      ensures LinkAt(ptr, ring', k)
    {
      assert LinkAt(ptr, ring, if k <= j then k else k + 1);
    }
  }

  lemma LinksJoined(ptr: map<nat, nat>, ptr': map<nat, nat>, ring: seq<nat>, blk: map<nat, nat>, j: nat, bp: nat)
    requires RingOk(ring, blk) && j < |ring| && bp !in ring && LinksBut(ptr, ring, j)
    requires bp in ptr && ptr[bp] == ring[NextIx(ring, j)] && ptr' == ptr[ring[j] := ptr[bp]]
    ensures Links(ptr', ring)
  {
    forall k: nat | k < |ring|
      ensures LinkAt(ptr', ring, k)
    {
      if k != j {
        assert LinkAt(ptr, ring, k);
        if ring[k] == ring[j] {
          NoRepeats(ring, blk, k, j);
        }
      }
    }
  }

  lemma LinksWith(ptr: map<nat, nat>, ptr': map<nat, nat>, ring: seq<nat>, blk: map<nat, nat>, j: nat, bp: nat)
    requires RingOk(ring, blk) && j < |ring| && bp !in ring && LinksBut(ptr, ring, j)
    requires bp in ptr && ptr[bp] == ring[NextIx(ring, j)] && ptr' == ptr[ring[j] := bp]
    ensures Links(ptr', With(ring, j, bp))
  {
    var ring' := With(ring, j, bp);
    forall k: nat | k < |ring'|
      ensures LinkAt(ptr', ring', k)
    {
      if k < j {
        assert LinkAt(ptr, ring, k);
        Sorted(ring, blk, k, j);
      } else if k > j + 1 {
        assert LinkAt(ptr, ring, k - 1);
        Sorted(ring, blk, j, k - 1);
      }
    }
  }

  // ----- searching the ring -----

  /** How many steps there are from element `k` on to element `j`. */
  function Distance(n: nat, k: nat, j: nat): nat
    requires k < n && j < n
  {
    if k <= j then j - k else j + n - k
  }

  lemma {:induction false} Locate(ring: seq<nat>, blk: map<nat, nat>, bp: nat, k: nat) returns (j: nat)
    requires RingOk(ring, blk) && bp in blk && bp !in ring && k < |ring| && ring[k] < bp
    ensures Place(ring, blk, bp, j)
    decreases |ring| - k
  {
    if k + 1 < |ring| && ring[k + 1] < bp {
      j := Locate(ring, blk, bp, k + 1);
    } else {
      j := k;
    }
  }

  /** The two tests of the loop in `free` single out the place of `bp`. */
  lemma StopsAt(ring: seq<nat>, blk: map<nat, nat>, bp: nat, j: nat, k: nat)
    requires RingOk(ring, blk) && Place(ring, blk, bp, j) && k < |ring|
    ensures var p, q := ring[k], ring[NextIx(ring, k)];
            (bp > p && bp < q) || (p >= q && (bp > p || bp < q)) <==> k == j
  {
    var n := |ring|;
    if k < j {
      Sorted(ring, blk, k, j);
      Sorted(ring, blk, k, k + 1);
      if k + 1 < j {
        Sorted(ring, blk, k + 1, j);
      }
    } else if j < k {
      if j + 1 < k {
        Sorted(ring, blk, j + 1, k);
      }
      if k + 1 < n {
        Sorted(ring, blk, k, k + 1);
      }
    }
    if k + 1 == n && 0 < k {
      Sorted(ring, blk, 0, k);
    }
  }

  lemma LinksButKept(ptr: map<nat, nat>, ptr': map<nat, nat>, ring: seq<nat>, j: nat, bp: nat)
    requires LinksBut(ptr, ring, j) && bp !in ring && bp in ptr' && ptr' == ptr[bp := ptr'[bp]]
    ensures LinksBut(ptr', ring, j)
  {
    forall k: nat | k < |ring| && k != j
      ensures LinkAt(ptr', ring, k)
    {
      assert LinkAt(ptr, ring, k);
    }
  }

  lemma SizesJoined(size: map<nat, nat>, blk: map<nat, nat>, a: nat, b: nat)
    requires Sizes(size, blk) && a in blk && b in blk && BASE !in blk
    ensures a in size && b in size && Sizes(size[a := size[a] + size[b]], (blk - {b})[a := blk[a] + blk[b]])
  {
  }

  lemma BaseApart(ring: seq<nat>, blk: map<nat, nat>)
    requires RingOk(ring, blk)
    ensures BASE !in blk
  {
  }

  /** An element of the ring has its block's size; only the base has none. */
  lemma RingSize(ring: seq<nat>, blk: map<nat, nat>, size: map<nat, nat>, j: nat)
    requires RingOk(ring, blk) && Sizes(size, blk) && j < |ring|
    ensures ring[j] in size && size[ring[j]] == Sz(blk, ring[j]) && (ring[j] in blk || ring[j] == BASE)
  {
    assert j > 0 ==> RingAt(ring, blk, j);
  }

  lemma BlockAbove(blk: map<nat, nat>, own: map<nat, nat>, a: nat)
    requires Tiled(blk, own) && a in blk
    ensures BASE < a && 0 < blk[a]
  {
    assert BlockOk(blk, own, a);
  }

  lemma LinksAll(ptr: map<nat, nat>, ring: seq<nat>, j: nat)
    requires Links(ptr, ring)
    ensures LinksBut(ptr, ring, j)
  {
  }

  lemma LiveSame(ring: seq<nat>, blk: map<nat, nat>, bp: nat)
    requires bp in blk && bp !in ring
    ensures Live(ring, blk) == Live(ring, blk)[bp := blk[bp]]
  {
  }

  lemma LiveAgain(ring: seq<nat>, blk: map<nat, nat>, ring': seq<nat>, blk': map<nat, nat>, bp: nat, n: nat)
    requires Live(ring', blk') == Live(ring, blk)[bp := n] - {bp}
    ensures Live(ring', blk') == Live(ring, blk) - {bp}
  {
  }

  // ----- taking blocks -----

  /** Taking element `i + 1`, a whole block, off the ring allocates it. */
  lemma Unlinked(ring: seq<nat>, blk: map<nat, nat>, i: nat)
    requires RingOk(ring, blk) && i + 1 < |ring|
    ensures var ring', p := Without(ring, i + 1), ring[i + 1];
            p in blk && p !in ring' && RingOk(ring', blk) && Live(ring', blk) == Live(ring, blk)[p := blk[p]]
  {
    var ring', p := Without(ring, i + 1), ring[i + 1];
    assert RingAt(ring, blk, i + 1);
    forall k: nat | 1 <= k < |ring'|
      ensures RingAt(ring', blk, k)
    {
      assert RingAt(ring, blk, if k <= i then k else k + 1);
    }
    forall k: nat | k < |ring'|
      ensures ring'[k] != p
    {
      if ring'[k] == p {
        NoRepeats(ring, blk, if k <= i then k else k + 1, i + 1);
      }
    }
    forall a | a in blk && a != p
      ensures a in ring' <==> a in ring
    {
      if k: nat :| k < |ring| && ring[k] == a {
        assert ring'[if k <= i then k else k - 1] == a;
      }
    }
  }

  lemma LinksUnlinked(ptr: map<nat, nat>, ring: seq<nat>, blk: map<nat, nat>, i: nat)
    requires RingOk(ring, blk) && i < |ring| && LinksBut(ptr, ring, i)
    ensures Links(ptr[ring[i] := ring[NextIx(ring, i)]], ring)
  {
    var ptr' := ptr[ring[i] := ring[NextIx(ring, i)]];
    forall k: nat | k < |ring|
      ensures LinkAt(ptr', ring, k)
    {
      if k != i {
        assert LinkAt(ptr, ring, k);
        if ring[k] == ring[i] {
          NoRepeats(ring, blk, k, i);
        }
      }
    }
  }

  /** Cutting `n` units off the end of the free block `p` allocates them. */
  lemma CutOff(ring: seq<nat>, blk: map<nat, nat>, own: map<nat, nat>, p: nat, b: nat, n: nat)
    requires RingOk(ring, blk) && Tiled(blk, own) && p in ring && p in blk && 0 < n < blk[p] && b == p + blk[p] - n
    ensures b !in blk && b !in ring && RingOk(ring, blk[p := blk[p] - n][b := n])
    ensures Live(ring, blk[p := blk[p] - n][b := n]) == Live(ring, blk)[b := n]
  {
    SplitTiled(blk, own, p, b, n);
    BlockAbove(blk, own, p);
    var blk' := blk[p := blk[p] - n][b := n];
    forall k: nat | k < |ring|
      ensures ring[k] != b
    {
      assert k > 0 ==> RingAt(ring, blk, k);
    }
    forall k: nat | 1 <= k < |ring|
      ensures RingAt(ring, blk', k)
    {
      assert RingAt(ring, blk, k);
    }
  }

  lemma SizesCut(size: map<nat, nat>, blk: map<nat, nat>, p: nat, b: nat, n: nat)
    requires Sizes(size, blk) && p in blk && n < blk[p] && b != p && BASE !in blk && b != BASE
    ensures p in size && Sizes(size[p := size[p] - n][b := n], blk[p := blk[p] - n][b := n])
  {
  }

  /** The elements after `f`, up to and including `i`, going round. */
  predicate Visited(f: nat, i: nat, k: nat) {
    if f <= i then f < k <= i else k > f || k <= i
  }

  predicate AllSmall(ring: seq<nat>, blk: map<nat, nat>, f: nat, i: nat, n: nat) {
    forall k: nat | k < |ring| && Visited(f, i, k) :: Sz(blk, ring[k]) < n
  }

  /** Steps left until the search is back at `f`. */
  function Left(n: nat, i: nat, f: nat): nat
    requires i < n && f < n
  {
    if i < f then f - i else f + n - i
  }

  predicate SomeBig(ring: seq<nat>, blk: map<nat, nat>, n: nat) {
    exists k: nat :: k < |ring| && Sz(blk, ring[k]) >= n
  }

  /** All the memory is below `at`. */
  predicate Above(own: map<nat, nat>, at: nat) {
    BASE < at && forall u | u in own :: u < at
  }

  // ----- what `sbrk` is asked for, and what it grants -----

  /** A number of bytes as the `int` parameter of `sbrk` has it. */
  function Int32(x: nat): int {
    var r := x % 0x1_0000_0000;
    if r < 0x8000_0000 then r else r - 0x1_0000_0000
  }

  /** The process size after a successful `sbrk(n)`, in the unsigned 32-bit arithmetic of `growproc`: a
      sum that wraps around changes nothing. */
  function Grown(sz: Word, n: int): Word {
    var t := (sz + n) % 0x1_0000_0000;
    if (n > 0 && t < sz) || (n < 0 && t > sz) then sz else t
  }

  /** The units that `morecore` asks for. */
  function Asked(nu: nat): nat {
    if nu < 4096 then 4096 else nu
  }

  /** The address `sbrk` returns for the process size `sz`: an `int`, made an address by extending its
      sign to 64 bits. */
  function Returned(sz: Word): nat {
    Int32(sz) % 0x1_0000_0000_0000_0000
  }

  /** Both the request and the process size are `int`s that are not negative. */
  predicate Fits(n: nat, brk: nat) {
    16 * n < 0x8000_0000 && 16 * brk < 0x8000_0000
  }

  lemma IntIs(x: nat)
    requires x <= 0x1_0000_0010
    ensures Int32(x) == if x < 0x8000_0000 then x else x - 0x1_0000_0000
  {
    if x >= 0x1_0000_0000 {
      assert x % 0x1_0000_0000 == x - 0x1_0000_0000;
    }
  }

  lemma ReturnedIs(sz: Word)
    ensures Returned(sz) == if sz < 0x8000_0000 then sz else sz + 0xFFFF_FFFF_0000_0000
  {
    IntIs(sz);
  }

  lemma GrownIs(sz: Word, n: int)
    requires -0x8000_0000 <= n < 0x8000_0000
    ensures Grown(sz, n) == if 0 <= sz + n < 0x1_0000_0000 then sz + n else sz
  {
    if sz + n < 0 {
      assert (sz + n) % 0x1_0000_0000 == sz + n + 0x1_0000_0000;
    } else if sz + n >= 0x1_0000_0000 {
      assert (sz + n) % 0x1_0000_0000 == sz + n - 0x1_0000_0000;
    }
  }

  /** `sbrk` grants all that is asked for, at the address it returns, exactly when the request fits. */
  lemma GrantExact(brk: nat, n: nat)
    requires 16 * brk < 0x1_0000_0000 && 0 < n <= 0x1000_0001
    ensures Grown(16 * brk, Int32(16 * n)) >= Returned(16 * brk) + 16 * n <==> Fits(n, brk)
    ensures Fits(n, brk) ==> Grown(16 * brk, Int32(16 * n)) == 16 * (brk + n)
    ensures Grown(16 * brk, Int32(16 * n)) % 16 == 0 && Returned(16 * brk) % 16 == 0 && Returned(16 * brk) >= 16 * brk
  {
    hide Int32, Returned, Grown;
    IntIs(16 * n);
    ReturnedIs(16 * brk);
    GrownIs(16 * brk, Int32(16 * n));
  }

  /** The largest request of all asks for sixteen bytes. */
  lemma LargestAsksForSixteen()
    ensures var n := (0xFFFF_FFFF + 15) / 16 + 1; n == Asked(n) == 0x1000_0001 && Int32(16 * n) == 16
  {
  }

  lemma FreshBlock(ring: seq<nat>, blk: map<nat, nat>, own: map<nat, nat>, size: map<nat, nat>, a: nat, n: nat)
    requires RingOk(ring, blk) && Tiled(blk, own) && Sizes(size, blk) && Above(own, a) && 0 < n
    ensures a !in blk && a !in ring && RingOk(ring, blk[a := n]) && Tiled(blk[a := n], Extend(own, a, n))
    ensures Sizes(size[a := n], blk[a := n])
    ensures own.Keys <= Extend(own, a, n).Keys
  {
    ExtendTiled(blk, own, a, n);
    forall k: nat | k < |ring|
      ensures ring[k] != a
    {
      assert k > 0 ==> RingAt(ring, blk, k);
    }
    var blk' := blk[a := n];
    forall k: nat | 1 <= k < |ring|
      ensures RingAt(ring, blk', k)
    {
      assert RingAt(ring, blk, k);
      assert k - 1 > 0 ==> RingAt(ring, blk, k - 1);
    }
  }

  lemma NotNull(ring: seq<nat>, blk: map<nat, nat>, p: nat)
    requires RingOk(ring, blk) && p in ring
    ensures p != 0
  {
    var k: nat :| k < |ring| && ring[k] == p;
    if k > 0 {
      Sorted(ring, blk, 0, k);
    }
  }

  lemma RingHead(ring: seq<nat>, blk: map<nat, nat>)
    requires RingOk(ring, blk)
    ensures |ring| >= 1 && ring[0] == BASE
  {
  }

  lemma LinkOf(ptr: map<nat, nat>, ring: seq<nat>, k: nat)
    requires Links(ptr, ring) && k < |ring|
    ensures ring[k] in ptr && ptr[ring[k]] == ring[NextIx(ring, k)]
  {
    assert LinkAt(ptr, ring, k);
  }

  lemma NotLive(ring: seq<nat>, blk: map<nat, nat>, p: nat)
    requires p in ring
    ensures p !in Live(ring, blk)
  {
  }

  lemma NotThere(ring: seq<nat>, blk: map<nat, nat>, p: nat)
    requires p !in blk
    ensures p !in Live(ring, blk)
  {
  }

  lemma RingIndex(ring: seq<nat>, blk: map<nat, nat>, j: nat, k: nat)
    requires RingOk(ring, blk) && j < |ring| && k < |ring|
    ensures ring[j] == ring[k] <==> j == k
  {
    if ring[j] == ring[k] {
      NoRepeats(ring, blk, j, k);
    }
  }

  lemma IndexOf(ring: seq<nat>, p: nat) returns (k: nat)
    requires p in ring
    ensures k < |ring| && ring[k] == p
  {
    k :| k < |ring| && ring[k] == p;
  }

  /** The search has come round: no free block is big enough. */
  lemma AllRound(ring: seq<nat>, blk: map<nat, nat>, f: nat, i: nat, n: nat)
    requires i < |ring| && f < |ring| && NextIx(ring, i) == f && AllSmall(ring, blk, f, i, n) && Sz(blk, ring[f]) < n
    ensures !SomeBig(ring, blk, n)
  {
    forall k: nat | k < |ring|
      ensures Sz(blk, ring[k]) < n
    {
      assert k == f || Visited(f, i, k);
    }
  }

  lemma VisitedMore(ring: seq<nat>, blk: map<nat, nat>, f: nat, i: nat, n: nat)
    requires i < |ring| && f < |ring| && NextIx(ring, i) != f && AllSmall(ring, blk, f, i, n)
    requires Sz(blk, ring[NextIx(ring, i)]) < n
    ensures AllSmall(ring, blk, f, NextIx(ring, i), n) && Left(|ring|, NextIx(ring, i), f) < Left(|ring|, i, f)
  {
    var i' := NextIx(ring, i);
    forall k: nat | k < |ring| && Visited(f, i', k)
      ensures Sz(blk, ring[k]) < n
    {
      assert k == i' || Visited(f, i, k);
    }
  }

  /** A block of `n` units from `a` on, above all others, ends below the break or not. */
  lemma LastUnit(own: map<nat, nat>, a: nat, n: nat, brk: nat)
    requires Above(own, a) && 0 < n
    ensures Above(Extend(own, a, n), brk) <==> a + n <= brk
  {
    assert Within(a + n - 1, a, n);
    assert a + n - 1 in Extend(own, a, n);
  }

  lemma LiveAdded(ring: seq<nat>, blk: map<nat, nat>, a: nat, n: nat)
    requires a !in blk && a !in ring
    ensures Live(ring, blk[a := n]) == Live(ring, blk)[a := n] && Live(ring, blk[a := n]) - {a} == Live(ring, blk)
  {
  }

  class Heap {
    var ptr: map<nat, nat>
    var size: map<nat, nat>
    var freep: nat
    var brk: nat
    ghost var ring: seq<nat>
    ghost var blk: map<nat, nat>
    ghost var own: map<nat, nat>

    /** Once `malloc` has been called: the ring, its links and the sizes are in order, and the blocks
        tile the memory. */
    ghost predicate Ready()
      reads this
    {
      freep in ring && RingOk(ring, blk) && Links(ptr, ring) && Sizes(size, blk) && Tiled(blk, own)
    }

    ghost predicate Valid()
      reads this
    {
      if freep == 0 then ring == [] && blk == map[] && own == map[] else Ready()
    }

    /** Every block lies below the break, in memory that the process has. */
    ghost predicate Backed()
      reads this
    {
      Above(own, brk) && 16 * brk < 0x1_0000_0000
    }

    constructor (brk: nat)
      requires BASE < brk && 16 * brk < 0x1_0000_0000
      ensures Valid() && Backed() && blk == map[] && this.brk == brk
    {
      ptr, size, freep := map[], map[], 0;
      this.brk := brk;
      ring, blk, own := [], map[], map[];
    }

    /** The loop of `free`: the free block after which `bp` belongs. */
    method FindPlace(bp: nat) returns (p: nat, ghost j: nat)
      requires Ready() && bp in blk && bp !in ring
      ensures Place(ring, blk, bp, j) && p == ring[j]
    {
      assert BlockOk(blk, own, bp);
      j := Locate(ring, blk, bp, 0);
      p := freep;
      ghost var k: nat :| k < |ring| && ring[k] == freep;
      assert LinkAt(ptr, ring, k);
      while !(bp > p && bp < ptr[p])
        invariant k < |ring| && p == ring[k] && LinkAt(ptr, ring, k)
        decreases Distance(|ring|, k, j)
      {
        StopsAt(ring, blk, bp, j, k);
        if p >= ptr[p] && (bp > p || bp < ptr[p]) {
          break;
        }
        p := ptr[p];
        k := NextIx(ring, k);
        assert LinkAt(ptr, ring, k);
      }
      StopsAt(ring, blk, bp, j, k);
    }

    /** Between the two halves of `free`: `bp` belongs after element `j`, whose link may be stale, and
        does not touch the free block after it. */
    ghost predicate Half(bp: nat, j: nat)
      reads this
    {
      && RingOk(ring, blk) && Sizes(size, blk) && Tiled(blk, own) && Place(ring, blk, bp, j)
      && LinksBut(ptr, ring, j) && bp in ptr && ptr[bp] == ring[NextIx(ring, j)]
      && (j + 1 < |ring| ==> bp + blk[bp] < ring[j + 1]) && ring[j] in ptr
      && ring[j] + Sz(blk, ring[j]) <= bp
    }

    /** First half of `free`: join `bp` to the free block after it, or link it to that one. */
    method JoinUpper(bp: nat, p: nat, ghost j: nat)
      requires Ready() && Place(ring, blk, bp, j) && p == ring[j]
      modifies this`ptr, this`size, this`ring, this`blk, this`own
      ensures Half(bp, j) && p == ring[j] && own.Keys == old(own).Keys && blk[bp] >= old(blk)[bp]
      ensures Live(ring, blk) == Live(old(ring), old(blk))[bp := blk[bp]]
    {
      hide Tiled, Live, Joined, LinksBut;
      PlaceFits(ring, blk, own, bp, j);
      assert LinkAt(ptr, ring, j);
      var nx := ptr[p];
      if bp + size[bp] == nx {
        assert j + 1 < |ring|;
        assert RingAt(ring, blk, j + 1) && LinkAt(ptr, ring, j + 1);
        TakeOver(bp, nx, j);
      } else {
        ptr := ptr[bp := nx];
        LinksAll(old(ptr), ring, j);
        LinksButKept(old(ptr), ptr, ring, j, bp);
        LiveSame(ring, blk, bp);
      }
    }

    /** `bp` takes over the free block `nx` it touches. */
    method TakeOver(bp: nat, nx: nat, ghost j: nat)
      requires Ready() && Place(ring, blk, bp, j) && j + 1 < |ring| && nx == ring[j + 1] && nx in blk
      requires bp + blk[bp] == nx
      requires nx in ptr && ring[j] in ptr && ring[j] + Sz(blk, ring[j]) <= bp
      modifies this`ptr, this`size, this`ring, this`blk, this`own
      ensures Half(bp, j) && ring[j] == old(ring)[j] && own.Keys == old(own).Keys && blk[bp] >= old(blk)[bp]
      ensures Live(ring, blk) == Live(old(ring), old(blk))[bp := blk[bp]]
    {
      hide Tiled, Live, RingOk, Links, LinksBut, Sizes;
      ghost var blk' := (blk - {nx})[bp := blk[bp] + blk[nx]];
      BaseApart(ring, blk);
      JoinTiled(blk, own, bp, nx);
      JoinNext(ring, blk, bp, j);
      LinksWithout(ptr, ring, j);
      SizesJoined(size, blk, bp, nx);
      size := size[bp := size[bp] + size[nx]];
      ptr := ptr[bp := ptr[nx]];
      own := Joined(own, bp, nx);
      blk := blk';
      ring := Without(ring, j + 1);
      LinksButKept(old(ptr), ptr, ring, j, bp);
    }

    /** Second half of `free`: join `bp` to the free block before it, or put it on the ring. */
    method JoinLower(bp: nat, p: nat, ghost j: nat)
      requires Half(bp, j) && p == ring[j]
      modifies this
      ensures brk == old(brk)
      ensures Ready() && own.Keys == old(own).Keys && Live(ring, blk) == Live(old(ring), old(blk)) - {bp}
      ensures exists k: nat :: k < |ring| && Sz(blk, ring[k]) >= old(blk)[bp]
    {
      hide Tiled, Live, RingOk, Links, LinksBut;
      BaseApart(ring, blk);
      RingSize(ring, blk, size, j);
      if p + size[p] == bp {
        GiveUp(bp, p, j);
      } else {
        InsertAfter(ring, blk, bp, j);
        LinksWith(ptr, ptr[p := bp], ring, blk, j, bp);
        ptr := ptr[p := bp];
        ring := With(ring, j, bp);
        freep := p;
        assert ring[j] == p && ring[j + 1] == bp;
      }
    }

    /** `bp` becomes part of the free block `p` it touches. */
    method GiveUp(bp: nat, p: nat, ghost j: nat)
      requires Half(bp, j) && p == ring[j] && p in size && p + size[p] == bp
      modifies this
      ensures brk == old(brk)
      ensures Ready() && own.Keys == old(own).Keys && Live(ring, blk) == Live(old(ring), old(blk)) - {bp}
      ensures exists k: nat :: k < |ring| && Sz(blk, ring[k]) >= old(blk)[bp]
    {
      hide Tiled, Live, RingOk, Links, LinksBut, Sizes;
      BaseApart(ring, blk);
      RingSize(ring, blk, size, j);
      BlockAbove(blk, own, bp);
      JoinTiled(blk, own, p, bp);
      JoinPrev(ring, blk, bp, j);
      LinksJoined(ptr, ptr[p := ptr[bp]], ring, blk, j, bp);
      SizesJoined(size, blk, p, bp);
      size := size[p := size[p] + size[bp]];
      ptr := ptr[p := ptr[bp]];
      own := Joined(own, p, bp);
      blk := (blk - {bp})[p := blk[p] + blk[bp]];
      freep := p;
      assert Sz(blk, ring[j]) >= old(blk)[bp];
    }

    /** Give block `bp` back. Exactly it stops being allocated, and the free list is again in address
        order with no two free blocks touching. */
    method Free(bp: nat)
      requires Ready() && bp in blk && bp !in ring
      modifies this
      ensures brk == old(brk)
      ensures Ready() && own.Keys == old(own).Keys && Live(ring, blk) == Live(old(ring), old(blk)) - {bp}
      ensures exists k: nat :: k < |ring| && Sz(blk, ring[k]) >= old(blk)[bp]
    {
      hide RingOk, Links, Sizes, Tiled, Live, LinksBut;
      var p, j := FindPlace(bp);
      JoinUpper(bp, p, j);
      ghost var n := blk[bp];
      JoinLower(bp, p, j);
      LiveAgain(old(ring), old(blk), ring, blk, bp, n);
    }

    /** Ask `sbrk` for at least `nu` units, which the kernel can refuse; 0 then. The new block goes on
        the free list, whatever memory was granted: all blocks are still in memory exactly when the
        request fits. */
    method Morecore(nu: nat, grant: bool) returns (p: nat)
      requires Ready() && Backed() && 0 < nu <= 0x1000_0001
      modifies this
      ensures Ready() && Live(ring, blk) == Live(old(ring), old(blk)) && (p == 0 <==> !grant)
      ensures p == 0 ==>
                ring == old(ring) && blk == old(blk) && own == old(own) && freep == old(freep) && brk == old(brk)
      ensures p != 0 ==> p == freep && SomeBig(ring, blk, nu) && old(own).Keys <= own.Keys
      ensures Backed() <==> !grant || Fits(Asked(nu), old(brk))
    {
      hide RingOk, Links, Sizes, Live;
      if !grant {
        return 0;
      }
      var n := Asked(nu);
      var a := Returned(16 * brk) / 16;
      GrantExact(brk, n);
      brk := Grown(16 * brk, Int32(16 * n)) / 16;
      FreshBlock(ring, blk, own, size, a, n);
      LiveAdded(ring, blk, a, n);
      size := size[a := n];
      own := Extend(own, a, n);
      blk := blk[a := n];
      LastUnit(old(own), a, n, brk);
      hide Extend;
      Free(a);
      p := freep;
      NotNull(ring, blk, freep);
    }

    /** Take `n` units from the free block `p`, which follows `prevp` on the ring. */
    method Take(prevp: nat, p: nat, n: nat, ghost i: nat) returns (h: nat)
      requires Ready() && i < |ring| && prevp == ring[i] && p == ring[NextIx(ring, i)] && 0 < n <= Sz(blk, p)
      modifies this
      ensures brk == old(brk)
      ensures Ready() && own.Keys == old(own).Keys
      ensures h !in Live(old(ring), old(blk)) && Live(ring, blk) == Live(old(ring), old(blk))[h := n]
    {
      hide RingOk, Links, Sizes, Tiled, Live, LinksBut;
      BaseApart(ring, blk);
      ghost var k := NextIx(ring, i);
      RingSize(ring, blk, size, k);
      RingHead(ring, blk);
      LinkOf(ptr, ring, k);
      NotLive(ring, blk, p);
      BlockAbove(blk, own, p);
      if size[p] == n {
        LinksWithout(ptr, ring, i);
        Unlinked(ring, blk, i);
        ring := Without(ring, i + 1);
        LinksUnlinked(ptr, ring, blk, i);
        ptr := ptr[prevp := ptr[p]];
        h := p;
      } else {
        h := p + (size[p] - n);
        SplitTiled(blk, own, p, h, n);
        CutOff(ring, blk, own, p, h, n);
        SizesCut(size, blk, p, h, n);
        NotThere(ring, blk, h);
        size := size[p := size[p] - n][h := n];
        own := Split(own, p, h);
        blk := blk[p := blk[p] - n][h := n];
      }
      freep := prevp;
    }

    /** The first call sets up the ring of the base header alone. */
    method Init()
      requires Valid()
      modifies this
      ensures brk == old(brk)
      ensures Ready() && freep != 0 && own == old(own) && Live(ring, blk) == Live(old(ring), old(blk))
      ensures forall n: nat | n > 0 :: SomeBig(ring, blk, n) <==> SomeBig(old(ring), old(blk), n)
    {
      if freep == 0 {
        ptr, size := ptr[BASE := BASE], size[BASE := 0];
        freep := BASE;
        ring := [BASE];
      } else {
        NotNull(ring, blk, freep);
      }
    }

    /** Allocate `nbytes` bytes: the header of a block of as many units as needed, which is a new
        allocated block; None if `sbrk` failed, and then nothing is big enough and nothing changes. At
        most one call of `sbrk` is made, and all blocks are in memory afterwards exactly when that
        call, if it succeeded, was for a request that fits. */
    method Malloc(nbytes: Word, grant: bool) returns (r: Option<nat>, calls: nat)
      requires Valid() && Backed()
      modifies this
      ensures Ready() && calls <= 1 && old(own).Keys <= own.Keys && (calls == 0 ==> own.Keys == old(own).Keys)
      ensures Backed() <==> calls == 0 || !grant || Fits(Asked((nbytes + 15) / 16 + 1), old(brk))
      ensures var n := (nbytes + 15) / 16 + 1;
              && nbytes <= 16 * (n - 1) && (calls == 0 <==> SomeBig(old(ring), old(blk), n)) && (grant ==> r.Some?)
              && (r.None? ==>
                    !grant && calls == 1 && !SomeBig(ring, blk, n) && Live(ring, blk) == Live(old(ring), old(blk)))
              && (r.Some? ==>
                    r.value !in Live(old(ring), old(blk)) && Live(ring, blk) == Live(old(ring), old(blk))[r.value := n])
    {
      hide RingOk, Links, Sizes, Tiled, Live;
      var nunits := (nbytes + 15) / 16 + 1;
      calls := 0;
      Init();
      var prevp := freep;
      ghost var f: nat :| f < |ring| && ring[f] == freep;
      ghost var i: nat := f;
      LinkOf(ptr, ring, i);
      var p := ptr[prevp];
      while true
        invariant Ready() && i < |ring| && prevp == ring[i] && p == ring[NextIx(ring, i)] && f < |ring|
        invariant freep == ring[f]
        invariant AllSmall(ring, blk, f, i, nunits) && calls <= 1 && (calls == 1 ==> SomeBig(ring, blk, nunits))
        invariant Live(ring, blk) == Live(old(ring), old(blk)) && old(own).Keys <= own.Keys
        invariant (calls == 0 ==> own.Keys == old(own).Keys)
        invariant SomeBig(old(ring), old(blk), nunits) <==> calls == 0 && SomeBig(ring, blk, nunits)
        invariant if calls == 0 then Backed() && brk == old(brk)
                  else grant && (Backed() <==> Fits(Asked(nunits), old(brk)))
        decreases 1 - calls, Left(|ring|, i, f)
      {
        RingSize(ring, blk, size, NextIx(ring, i));
        LinkOf(ptr, ring, NextIx(ring, i));
        if size[p] >= nunits {
          var h := Take(prevp, p, nunits, i);
          return Some(h), calls;
        }
        if p == freep {
          RingIndex(ring, blk, NextIx(ring, i), f);
          AllRound(ring, blk, f, i, nunits);
          p := Morecore(nunits, grant);
          calls := calls + 1;
          if p == 0 {
            return None, calls;
          }
          f := IndexOf(ring, freep);
          i := f;
          LinkOf(ptr, ring, i);
        } else {
          RingIndex(ring, blk, NextIx(ring, i), f);
          VisitedMore(ring, blk, f, i, nunits);
          i := NextIx(ring, i);
        }
        prevp := p;
        p := ptr[p];
      }
    }
  }
}
