/** How many page-table pages a range of virtual pages needs. */
module TableCount {
  import opened PageTable

  /** The table pages on the way to virtual page `n`, below the root. */
  function Way(n: nat): set<Place> {
    {Up(n, 1), Up(n, 2)}
  }

  /** The table pages on the way to the pages from `lo` to `hi`. */
  function Ways(lo: nat, hi: nat): set<Place>
    decreases hi
  {
    if hi <= lo then {} else Ways(lo, hi - 1) + Way(hi - 1)
  }

  /** The pages it takes to map the virtual pages from `lo` to `hi`, when the tables `have` are there: one for
      each, and the tables that are missing. */
  function Toll(have: set<Place>, lo: nat, hi: nat): nat
    requires lo <= hi
  {
    hi - lo + |Ways(lo, hi) - have|
  }

  lemma SplitMissing(a: set<Place>, b: set<Place>, have: set<Place>)
    ensures |a + b - have| == |a - have| + |b - (have + a)|
  {
    assert a + b - have == (a - have) + (b - (have + a));
    assert (a - have) !! (b - (have + a));
  }

  lemma WaysOne(n: nat)
    ensures Ways(n, n) == {} && Ways(n, n + 1) == Way(n)
  {
  }

  lemma TollOne(have: set<Place>, n: nat)
    ensures Toll(have, n, n) == 0 && Toll(have, n, n + 1) == 1 + |Way(n) - have|
  {
    WaysOne(n);
    assert {} - have == {};
  }

  lemma {:induction false} WaysSplit(lo: nat, m: nat, hi: nat)
    requires lo <= m <= hi
    ensures Ways(lo, hi) == Ways(lo, m) + Ways(m, hi)
  {
    if m < hi {
      WaysSplit(lo, m, hi - 1);
    }
  }

  /** A range is paid for in two parts. */
  lemma TollSplit(have: set<Place>, lo: nat, m: nat, hi: nat)
    requires lo <= m <= hi
    ensures Ways(lo, hi) == Ways(lo, m) + Ways(m, hi)
    ensures Toll(have, lo, hi) == Toll(have, lo, m) + Toll(have + Ways(lo, m), m, hi)
  {
    WaysSplit(lo, m, hi);
    SplitMissing(Ways(lo, m), Ways(m, hi), have);
  }

  /** One more page paid for. */
  lemma TollStep(have: set<Place>, lo: nat, n: nat, hi: nat)
    requires lo <= n < hi
    ensures Ways(lo, n + 1) == Ways(lo, n) + Way(n)
    ensures Toll(have, lo, n + 1) == Toll(have, lo, n) + 1 + |Way(n) - (have + Ways(lo, n))|
    ensures Toll(have, lo, n + 1) <= Toll(have, lo, hi)
  {
    TollSplit(have, lo, n, n + 1);
    WaysOne(n);
    TollSplit(have, lo, n + 1, hi);
  }

  // ----- the pages spent -----

  /** Tables added on the way to what is wanted, all from the free list: when all of them are there, those
      that were missing have been paid for. */
  lemma AllThere(have: set<Place>, now: set<Place>, want: set<Place>, free0: nat, free: nat)
    requires have <= now <= have + want && want <= now && free + |now| == free0 + |have|
    ensures now == have + want && free0 == free + |want - have|
  {
    assert now == have + (want - have);
  }

  /** When one is missing and no page is left, there were too few for all that are missing. */
  lemma OneMissing(have: set<Place>, now: set<Place>, want: set<Place>, free0: nat, c: Place)
    requires have <= now <= have + want && c in want && c !in now && |now| == free0 + |have|
    ensures free0 < |want - have|
  {
    var more := now - have;
    assert now == have + more;
    Smaller(more, want - have, c);
  }

  lemma Smaller(a: set<Place>, b: set<Place>, c: Place)
    requires a <= b && c in b && c !in a
    ensures |a| < |b|
  {
    assert b == a + (b - a) && c in b - a;
  }

  // ----- from the first page on -----

  /** The table pages for the first `n` pages: one for every 512 of them, and one for every 512 of those. */
  function TablesFor(n: nat): nat {
    Ceiling(n, 512) + Ceiling(n, 0x4_0000)
  }

  function Ceiling(n: nat, m: nat): nat
    requires m > 0
  {
    (n + m - 1) / m
  }

  lemma WayKeys(n: nat)
    ensures Way(n) == {Place(1, n / 512), Place(2, n / 0x4_0000)}
  {
    assert Up(n, 1) == Place(1, Hi(n));
    assert Up(n, 2) == Place(2, Hi(Hi(n)));
    assert n / 512 / 512 == n / 0x4_0000;
  }

  lemma {:induction false} InWays(n: nat, c: Place)
    ensures c in Ways(0, n) <==> (c.level == 1 && c.key * 512 < n) || (c.level == 2 && c.key * 0x4_0000 < n)
  {
    if n > 0 {
      InWays(n - 1, c);
      WayKeys(n - 1);
      NextKey(n - 1, 512, c.key);
      NextKey(n - 1, 0x4_0000, c.key);
    }
  }

  lemma NextKey(n: nat, m: nat, k: nat)
    requires m == 512 || m == 0x4_0000
    ensures k * m < n + 1 <==> k * m < n || k == n / m
  {
  }

  /** Whether page `n` is the first one below its table, which covers `m` pages. */
  function Opens(n: nat, m: nat): nat
    requires m > 0
  {
    if n / m * m < n then 0 else 1
  }

  lemma WaysGrow(n: nat)
    ensures |Ways(0, n + 1)| == |Ways(0, n)| + Opens(n, 512) + Opens(n, 0x4_0000)
  {
    var a, b := Place(1, n / 512), Place(2, n / 0x4_0000);
    WayKeys(n);
    InWays(n, a);
    InWays(n, b);
    assert Ways(0, n + 1) == Ways(0, n) + {a, b};
    hide Ways, Way;
    AddTwo(Ways(0, n), a, b);
  }

  lemma {:induction false} WaysCount(n: nat)
    ensures |Ways(0, n)| == TablesFor(n)
  {
    hide TablesFor;
    if n == 0 {
      NoTables();
    } else {
      WaysCount(n - 1);
      WaysGrow(n - 1);
      TablesGrow(n - 1);
    }
  }

  lemma NoTables()
    ensures TablesFor(0) == 0
  {
  }

  lemma TablesGrow(n: nat)
    ensures TablesFor(n + 1) == TablesFor(n) + Opens(n, 512) + Opens(n, 0x4_0000)
  {
    hide Opens, Ceiling;
    NextCeiling(n, 512);
    NextCeiling(n, 0x4_0000);
  }

  lemma AddTwo(w: set<Place>, a: Place, b: Place)
    requires a != b
    ensures |w + {a, b}| == |w| + (if a in w then 0 else 1) + if b in w then 0 else 1
  {
    var w1 := w + {a};
    assert a in w ==> w1 == w;
    assert w + {a, b} == w1 + {b} && (b in w ==> w1 + {b} == w1);
  }

  lemma NextCeiling(n: nat, m: nat)
    requires m == 512 || m == 0x4_0000
    ensures Ceiling(n + 1, m) == Ceiling(n, m) + Opens(n, m)
  {
  }

  /** The table pages of an address space with no user memory: the root, and the way to the trap frame and the
      trampoline, which is one. */
  const HIGH: set<Place> := {ROOT, Place(1, 0x1_ffff), Place(2, 0xff)}

  /** The pages that an address space with `n` user pages takes. */
  function SpaceCost(n: nat): nat {
    |HIGH| + n + TablesFor(n)
  }

  lemma HighSize()
    ensures |HIGH| == 3
  {
    assert HIGH == {ROOT} + ({Place(1, 0x1_ffff)} + {Place(2, 0xff)});
  }

  lemma HighApart(n: nat, c: Place)
    requires n <= 0x200_0000 && c in HIGH
    ensures c !in Ways(0, n)
  {
    InWays(n, c);
  }

  /** What the first `n` pages take in such an address space; exactly so while they do not come near the trap
      frame. */
  lemma FirstToll(n: nat)
    ensures |HIGH| == 3 && Toll(HIGH, 0, n) <= n + TablesFor(n)
    ensures n <= 0x200_0000 ==> Toll(HIGH, 0, n) == n + TablesFor(n)
  {
    HighSize();
    WaysCount(n);
    hide Ways, TablesFor;
    var w := Ways(0, n);
    assert w == (w - HIGH) + (w * HIGH);
    if n <= 0x200_0000 {
      forall c | c in HIGH
        ensures c !in w
      {
        HighApart(n, c);
      }
      assert w * HIGH == {};
    }
  }
}
