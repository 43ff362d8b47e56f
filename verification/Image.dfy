/** What a program looks like in memory: the bytes of a page, and the pages that the segments of a program
    file make up.

    A page is 512 words, as the page-table code sees it; reading a file overwrites its first bytes. */
module Image {
  import opened Words
  import opened PageTable

  const PAGE: nat := 4096

  function Pow256(k: nat): (r: nat)
    ensures r > 0
  {
    if k == 0 then 1 else 256 * Pow256(k - 1)
  }

  /** Byte `k` of a word, least significant first. */
  function ByteOf(v: nat, k: nat): Byte {
    if k == 0 then v % 256 else ByteOf(v / 256, k - 1)
  }

  /** A word of `k` bytes whose lowest bytes are replaced by `bs`. */
  function PatchWord(v: nat, k: nat, bs: seq<Byte>): (r: nat)
    requires v < Pow256(k) && |bs| <= k
    ensures r < Pow256(k)
  {
    if bs == [] then v else bs[0] + 256 * PatchWord(v / 256, k - 1, bs[1..])
  }

  lemma {:induction false} PatchWordAt(v: nat, k: nat, bs: seq<Byte>, j: nat)
    requires v < Pow256(k) && |bs| <= k
    ensures ByteOf(PatchWord(v, k, bs), j) == if j < |bs| then bs[j] else ByteOf(v, j)
  {
    if bs != [] && j > 0 {
      PatchWordAt(v / 256, k - 1, bs[1..], j - 1);
      assert PatchWord(v, k, bs) / 256 == PatchWord(v / 256, k - 1, bs[1..]);
    }
  }

  lemma WordRange()
    ensures Pow256(8) == 0x1_0000_0000_0000_0000
  {
    assert Pow256(2) == 0x1_0000;
    assert Pow256(4) == 0x1_0000_0000;
    assert Pow256(6) == 0x1_0000_0000_0000;
  }

  /** Byte `j` of a page. */
  function PageByte(x: Page, j: nat): Byte
    requires j < PAGE
  {
    ByteOf(x.w[j / 8], j % 8)
  }

  /** The bytes of `data` from `i` on, at most `n` of them. */
  function Bytes(data: seq<Byte>, i: nat, n: nat): (r: seq<Byte>)
    ensures |r| <= n
  {
    if i >= |data| then [] else if i + n <= |data| then data[i..i + n] else data[i..]
  }

  /** The page with its first bytes replaced by `data`. */
  function Patch(x: Page, data: seq<Byte>): Page
    requires |data| <= PAGE
  {
    WordRange();
    Page(seq(512, (i: nat) requires i < 512 => PatchWord(x.w[i], 8, Bytes(data, 8 * i, 8)) as U64))
  }

  lemma PatchAt(x: Page, data: seq<Byte>, j: nat)
    requires |data| <= PAGE && j < PAGE
    ensures PageByte(Patch(x, data), j) == if j < |data| then data[j] else PageByte(x, j)
  {
    WordRange();
    var i := j / 8;
    var bs := Bytes(data, 8 * i, 8);
    PatchWordAt(x.w[i], 8, bs, j % 8);
    assert j == 8 * i + j % 8;
  }

  // ----- the pages of a program -----

  /** A segment to load: where, how large in memory, how much of it is in the file, and the bytes that the
      file has there. */
  datatype Segment = Segment(vaddr: U64, memsz: U64, filesz: U64, data: seq<Byte>)

  /** The checks that `exec` makes of a segment, and that the file holds all of it. */
  predicate Fine(seg: Segment) {
    && seg.filesz <= seg.memsz && seg.vaddr + seg.memsz < 0x1_0000_0000_0000_0000 && seg.vaddr % PAGE == 0
    && seg.filesz <= |seg.data|
  }

  predicate AllFine(segs: seq<Segment>) {
    forall k | 0 <= k < |segs| :: Fine(segs[k])
  }

  function PagesUp(sz: nat): nat {
    (sz + PAGE - 1) / PAGE
  }

  function Max(a: nat, b: nat): nat {
    if a < b then b else a
  }

  /** Where the last of the segments ends. */
  function SizeOf(segs: seq<Segment>): nat {
    if segs == [] then 0
    else var seg := segs[|segs| - 1]; Max(SizeOf(segs[..|segs| - 1]), seg.vaddr + seg.memsz)
  }

  /** The segments that `exec` loads: it takes a size of 0 after the first one for a failure. */
  predicate Loads(segs: seq<Segment>) {
    AllFine(segs) && (segs != [] ==> segs[0].vaddr + segs[0].memsz > 0)
  }

  lemma {:induction false} SizeMono(segs: seq<Segment>, k: nat)
    requires k <= |segs|
    ensures SizeOf(segs[..k]) <= SizeOf(segs)
  {
    if k < |segs| {
      var n := |segs| - 1;
      SizeMono(segs[..n], k);
      assert segs[..n][..k] == segs[..k];
    } else {
      assert segs[..k] == segs;
    }
  }

  lemma LoadsAt(segs: seq<Segment>, i: nat)
    requires Loads(segs) && i < |segs|
    ensures Fine(segs[i]) && SizeOf(segs[..i + 1]) > 0
  {
    SizeMono(segs[..i + 1], 1);
    assert segs[..i + 1][..1] == segs[..1] && segs[..1][0] == segs[0];
  }

  /** The image with zeroed pages added up to `np` of them. */
  function Grown(img: seq<Page>, np: nat): (r: seq<Page>)
    ensures |r| == if np < |img| then |img| else np
    ensures forall n: nat | n < |img| :: r[n] == img[n]
    ensures forall n: nat | |img| <= n < |r| :: r[n] == AllWords(0)
  {
    if np <= |img| then img else img + seq(np - |img|, _ => AllWords(0))
  }

  /** The bytes that go to page `k` of a segment with `sz` bytes. */
  function Piece(data: seq<Byte>, sz: nat, k: nat): (r: seq<Byte>)
    ensures |r| <= PAGE
  {
    Bytes(data, k * PAGE, if sz < k * PAGE then 0 else if sz - k * PAGE < PAGE then sz - k * PAGE else PAGE)
  }

  /** The image with the first `m` pages of a segment at page `first` read in. */
  function ReadIn(img: seq<Page>, first: nat, data: seq<Byte>, sz: nat, m: nat): (r: seq<Page>)
    requires first + m <= |img|
    ensures |r| == |img|
  {
    if m == 0 then img
    else
      var r := ReadIn(img, first, data, sz, m - 1);
      r[first + m - 1 := Patch(r[first + m - 1], Piece(data, sz, m - 1))]
  }

  /** The segment read into an image that reaches to its end. */
  function Placed(img: seq<Page>, seg: Segment): (r: seq<Page>)
    requires Fine(seg)
    ensures |r| == Max(|img|, PagesUp(seg.vaddr + seg.memsz))
  {
    var g := Grown(img, PagesUp(seg.vaddr + seg.memsz));
    SegmentFits(seg);
    ReadIn(g, seg.vaddr / PAGE, seg.data, seg.filesz, PagesUp(seg.filesz))
  }

  lemma SegmentFits(seg: Segment)
    requires Fine(seg)
    ensures seg.vaddr / PAGE + PagesUp(seg.filesz) <= PagesUp(seg.vaddr + seg.memsz)
  {
    assert seg.vaddr == seg.vaddr / PAGE * PAGE;
  }

  /** The pages that the segments make up, one after another. */
  function Program(segs: seq<Segment>): (r: seq<Page>)
    requires AllFine(segs)
    ensures |r| == PagesUp(SizeOf(segs))
  {
    if segs == [] then [] else Placed(Program(segs[..|segs| - 1]), segs[|segs| - 1])
  }

  // ----- byte by byte -----

  /** The byte at address `a` of an image. */
  function ByteAt(img: seq<Page>, a: nat): Byte
    requires a < PAGE * |img|
  {
    PageByte(img[a / PAGE], a % PAGE)
  }

  lemma {:induction false} ReadInAt(img: seq<Page>, first: nat, data: seq<Byte>, sz: nat, m: nat, n: nat)
    requires first + m <= |img| && n < |img|
    ensures ReadIn(img, first, data, sz, m)[n] ==
              if first <= n < first + m then Patch(img[n], Piece(data, sz, n - first)) else img[n]
  {
    if m > 0 {
      ReadInAt(img, first, data, sz, m - 1, n);
      ReadInAt(img, first, data, sz, m - 1, first + m - 1);
    }
  }

  lemma PieceAt(data: seq<Byte>, sz: nat, k: nat, j: nat)
    requires sz <= |data| && j < PAGE
    ensures j < |Piece(data, sz, k)| <==> k * PAGE + j < sz
    ensures j < |Piece(data, sz, k)| ==> Piece(data, sz, k)[j] == data[k * PAGE + j]
  {
  }

  lemma PastLast(filesz: nat, k: nat, j: nat)
    ensures k * PAGE + j < filesz ==> k < PagesUp(filesz)
  {
  }

  lemma PlacedPage(img: seq<Page>, seg: Segment, n: nat)
    requires Fine(seg) && n < |Placed(img, seg)|
    ensures var x, first := (if n < |img| then img[n] else AllWords(0)), seg.vaddr / PAGE;
            Placed(img, seg)[n] ==
              if first <= n < first + PagesUp(seg.filesz) then Patch(x, Piece(seg.data, seg.filesz, n - first)) else x
  {
    hide Patch, Piece;
    SegmentFits(seg);
    var g := Grown(img, PagesUp(seg.vaddr + seg.memsz));
    ReadInAt(g, seg.vaddr / PAGE, seg.data, seg.filesz, PagesUp(seg.filesz), n);
  }

  lemma PieceByte(x: Page, data: seq<Byte>, sz: nat, k: nat, j: nat)
    requires sz <= |data| && j < PAGE
    ensures var y := if k < PagesUp(sz) then Patch(x, Piece(data, sz, k)) else x;
            PageByte(y, j) == if k * PAGE + j < sz then data[k * PAGE + j] else PageByte(x, j)
  {
    PastLast(sz, k, j);
    PieceAt(data, sz, k, j);
    hide Patch, Piece, PageByte, PagesUp;
    PatchAt(x, Piece(data, sz, k), j);
  }

  lemma PlacedByte(img: seq<Page>, seg: Segment, first: nat, n: nat, j: nat)
    requires Fine(seg) && first == seg.vaddr / PAGE && n < |Placed(img, seg)| && j < PAGE
    ensures var x := if n < |img| then img[n] else AllWords(0);
            PageByte(Placed(img, seg)[n], j) ==
              if first <= n && (n - first) * PAGE + j < seg.filesz then seg.data[(n - first) * PAGE + j]
              else PageByte(x, j)
  {
    PlacedPage(img, seg, n);
    hide Patch, Piece, PageByte, Placed, AllWords, PagesUp, Max;
    if first <= n {
      PieceByte(if n < |img| then img[n] else AllWords(0), seg.data, seg.filesz, n - first, j);
    }
  }

  /** Where address `a` is in a segment, by page and byte. */
  lemma Where(vaddr: nat, a: nat)
    requires vaddr % PAGE == 0
    ensures var first, n, j := vaddr / PAGE, a / PAGE, a % PAGE;
            (vaddr <= a ==> first <= n && (n - first) * PAGE + j == a - vaddr) && (a < vaddr ==> n < first)
  {
    assert vaddr == vaddr / PAGE * PAGE && a == a / PAGE * PAGE + a % PAGE;
  }

  lemma PageIndex(a: nat, m: nat)
    ensures a < PAGE * m <==> a / PAGE < m
  {
  }

  /** Placing a segment puts its bytes where it says, zeroes what is new besides, and leaves the rest. */
  lemma PlacedAt(img: seq<Page>, seg: Segment, a: nat)
    requires Fine(seg) && a < PAGE * |Placed(img, seg)|
    ensures ByteAt(Placed(img, seg), a) ==
              if seg.vaddr <= a < seg.vaddr + seg.filesz then seg.data[a - seg.vaddr]
              else if a < PAGE * |img| then ByteAt(img, a)
              else 0
  {
    hide PageByte, Placed, AllWords, PagesUp;
    PageIndex(a, |Placed(img, seg)|);
    PageIndex(a, |img|);
    Where(seg.vaddr, a);
    PlacedByte(img, seg, seg.vaddr / PAGE, a / PAGE, a % PAGE);
    ZeroPageByte(a % PAGE);
  }

  lemma ZeroPageByte(j: nat)
    requires j < PAGE
    ensures PageByte(AllWords(0), j) == 0
  {
    ZeroWordByte(j % 8);
  }

  lemma {:induction false} ZeroWordByte(k: nat)
    ensures ByteOf(0, k) == 0
  {
    if k > 0 {
      ZeroWordByte(k - 1);
    }
  }

  /** The last segment that covers an address with bytes of the file, if there is one, says what is there; if
      there is none, the byte is zero. */
  lemma {:induction false} ProgramAt(segs: seq<Segment>, a: nat, k: nat)
    requires AllFine(segs) && a < PAGE * |Program(segs)| && k <= |segs|
    requires forall i | k <= i < |segs| :: !Covers(segs[i], a)
    requires k > 0 ==> Covers(segs[k - 1], a)
    ensures ByteAt(Program(segs), a) == if k == 0 then 0 else segs[k - 1].data[a - segs[k - 1].vaddr]
    decreases |segs|
  {
    hide Placed, PagesUp, ByteAt;
    if segs != [] {
      var front, seg := segs[..|segs| - 1], segs[|segs| - 1];
      assert forall i | 0 <= i < |front| :: front[i] == segs[i];
      PlacedAt(Program(front), seg, a);
      if k < |segs| {
        if a < PAGE * |Program(front)| {
          ProgramAt(front, a, k);
        } else if k > 0 {
          CoversInside(front, k - 1, a);
        }
      }
    }
  }

  /** Address `a` holds a byte of the segment's part of the file. */
  predicate Covers(seg: Segment, a: nat) {
    seg.vaddr <= a < seg.vaddr + seg.filesz
  }

  lemma {:induction false} CoversInside(segs: seq<Segment>, k: nat, a: nat)
    requires AllFine(segs) && k < |segs| && Covers(segs[k], a)
    ensures a < PAGE * |Program(segs)|
    decreases |segs|
  {
    if k < |segs| - 1 {
      CoversInside(segs[..|segs| - 1], k, a);
    }
  }
}
