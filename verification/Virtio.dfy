/** The disk driver and the disk device sharing descriptors and two rings, for any number of requests:
    every driver step runs under the driver's lock; the device works on its own and completes the
    requests it has taken in any order. */
module Virtio {
  import opened Basics

  const NUM: nat := 8
  const WRAP: nat := 0x1_0000

  /** What a descriptor points to: a command header, a buffer's data, or a status byte. */
  datatype Addr = Null | Header(i: nat) | Buffer(b: nat) | Status(i: nat)

  datatype Desc = Desc(addr: Addr, more: bool, deviceWrites: bool, next: nat)

  const UNUSED: Desc := Desc(Null, false, false, 0)

  /** A transfer: to or from the disk, which block, and the buffer. */
  datatype Request = Request(write: bool, block: nat, buf: nat)

  datatype Command = Command(write: bool, block: nat)

  datatype Info = Info(buf: Option<nat>, status: nat)

  /** Where a request is: in the available ring, with the device, in the used ring, or seen by the
      interrupt handler. */
  datatype Phase = Waiting | Working | Posted | Over

  /** History of a request: its second and third descriptors, what was asked for, where it is, and the
      status the device has reported. */
  datatype Chain = Chain(d1: nat, d2: nat, req: Request, phase: Phase, status: nat)

  /** The driver's mark for a request not yet done. */
  const PENDING: nat := 0xff

  /** The shared memory, the driver's and the device's private indices, and as history the requests
      under way, the descriptors' owners, and the true ring contents and totals. */
  datatype State = State(
    free: seq<bool>, desc: seq<Desc>, ops: seq<Command>, info: seq<Info>,
    avail: seq<nat>, availIdx: nat, used: seq<nat>, usedIdx: nat, seen: nat, taken: nat, busy: set<nat>,
    chains: map<nat, Chain>, owner: map<nat, nat>, waiting: seq<nat>, posted: seq<nat>, nTaken: nat, nSeen: nat)

  datatype Event =
    | Submit(h: nat, d1: nat, d2: nat, req: Request)
    | Take
    | Complete(h: nat, status: nat)
    | Interrupt
    | Finish(h: nat)

  predicate Shaped(s: State) {
    |s.free| == |s.desc| == |s.ops| == |s.info| == |s.avail| == |s.used| == NUM
  }

  predicate Apart(h: nat, d1: nat, d2: nat) {
    h < NUM && d1 < NUM && d2 < NUM && h != d1 && h != d2 && d1 != d2
  }

  /** `virtio_disk_rw` up to the notification, with three free descriptors. The buffer is locked by the
      caller, so no other request is under way for it. */
  predicate SubmitStep(s: State, h: nat, d1: nat, d2: nat, req: Request, s': State) {
    && Shaped(s) && Apart(h, d1, d2) && s.free[h] && s.free[d1] && s.free[d2]
    && (forall g | g in s.chains :: s.chains[g].req.buf != req.buf)
    && s' == s.(
         free := s.free[h := false][d1 := false][d2 := false],
         ops := s.ops[h := Command(req.write, req.block)],
         desc := s.desc[h := Desc(Header(h), true, false, d1)][d1 := Desc(Buffer(req.buf), true, !req.write, d2)]
                 [d2 := Desc(Status(h), false, true, 0)],
         info := s.info[h := Info(Some(req.buf), 0xff)],
         busy := s.busy + {req.buf},
         avail := s.avail[s.availIdx % NUM := h],
         availIdx := (s.availIdx + 1) % WRAP,
         chains := s.chains[h := Chain(d1, d2, req, Waiting, PENDING)],
         owner := s.owner[h := h][d1 := h][d2 := h],
         waiting := s.waiting + [h])
  }

  /** The device takes the next entry of the available ring. */
  predicate TakeStep(s: State, s': State) {
    && Shaped(s) && s.taken != s.availIdx
    && var h := s.avail[s.taken % NUM];
       && h in s.chains && s.waiting != []
       && s' == s.(taken := (s.taken + 1) % WRAP, chains := s.chains[h := s.chains[h].(phase := Working)],
                   waiting := s.waiting[1..], nTaken := s.nTaken + 1)
  }

  /** What the device finds when it follows the chain from descriptor `h`. */
  function Decode(s: State, h: nat): Option<Request>
    requires Shaped(s)
  {
    if h >= NUM || !s.desc[h].addr.Header? || s.desc[h].addr.i >= NUM || !s.desc[h].more || s.desc[h].next >= NUM
    then None
    else
      var c := s.ops[s.desc[h].addr.i];
      var d := s.desc[s.desc[h].next];
      if !d.addr.Buffer? || d.deviceWrites == c.write || !d.more then None
      else Some(Request(c.write, c.block, d.addr.b))
  }

  /** The status byte at the end of the chain. */
  function StatusOf(s: State, h: nat): nat
    requires Shaped(s)
  {
    if h < NUM && s.desc[h].next < NUM && s.desc[s.desc[h].next].next < NUM
       && s.desc[s.desc[s.desc[h].next].next].addr.Status?
    then s.desc[s.desc[s.desc[h].next].next].addr.i else NUM
  }

  /** The device has done a request it has taken, in any order: it writes a status, whatever it is, and
      posts the head to the used ring. */
  predicate CompleteStep(s: State, h: nat, status: nat, s': State) {
    && Shaped(s) && h in s.chains && s.chains[h].phase == Working && StatusOf(s, h) < NUM
    && s' == s.(info := s.info[StatusOf(s, h) := s.info[StatusOf(s, h)].(status := status)],
                used := s.used[s.usedIdx % NUM := h], usedIdx := (s.usedIdx + 1) % WRAP,
                chains := s.chains[h := s.chains[h].(phase := Posted, status := status)], posted := s.posted + [h])
  }

  /** One round of the loop in `virtio_disk_intr`; a status other than 0 is a panic. */
  predicate InterruptStep(s: State, s': State) {
    && Shaped(s) && s.seen != s.usedIdx
    && var h := s.used[s.seen % NUM];
       && h < NUM && h in s.chains && s.posted != [] && s.info[h].status == 0 && s.info[h].buf.Some?
       && s' == s.(busy := s.busy - {s.info[h].buf.value}, seen := (s.seen + 1) % WRAP,
                   chains := s.chains[h := s.chains[h].(phase := Over)], posted := s.posted[1..], nSeen := s.nSeen + 1)
  }

  /** `virtio_disk_rw` finds its buffer no longer busy and frees the chain. */
  predicate FinishStep(s: State, h: nat, s': State) {
    && Shaped(s) && h in s.chains && h < NUM && s.chains[h].req.buf !in s.busy
    && var d1 := s.desc[h].next;
       && d1 < NUM
       && var d2 := s.desc[d1].next;
          && d2 < NUM
          && s' == s.(free := s.free[h := true][d1 := true][d2 := true],
                      desc := s.desc[h := UNUSED][d1 := UNUSED][d2 := UNUSED],
                      info := s.info[h := s.info[h].(buf := None)],
                      chains := s.chains - {h}, owner := s.owner - {h, d1, d2})
  }

  predicate Next(s: State, e: Event, s': State) {
    match e
    case Submit(h, d1, d2, req) => SubmitStep(s, h, d1, d2, req, s')
    case Take => TakeStep(s, s')
    case Complete(h, status) => CompleteStep(s, h, status, s')
    case Interrupt => InterruptStep(s, s')
    case Finish(h) => FinishStep(s, h, s')
  }

  predicate Start(s: State) {
    && Shaped(s) && s.availIdx == 0 && s.usedIdx == 0 && s.seen == 0 && s.taken == 0 && s.busy == {}
    && s.chains == map[] && s.owner == map[] && s.waiting == [] && s.posted == [] && s.nTaken == 0 && s.nSeen == 0
    && forall d | 0 <= d < NUM :: s.free[d]
  }

  // ----- what every reachable state satisfies -----

  /** A request's three descriptors are its own and say what it is. */
  predicate ChainOk(s: State, h: nat)
    requires Shaped(s) && h in s.chains
  {
    var c := s.chains[h];
    && Apart(h, c.d1, c.d2)
    && h in s.owner && s.owner[h] == h && c.d1 in s.owner && s.owner[c.d1] == h && c.d2 in s.owner && s.owner[c.d2] == h
    && s.desc[h] == Desc(Header(h), true, false, c.d1)
    && s.desc[c.d1] == Desc(Buffer(c.req.buf), true, !c.req.write, c.d2)
    && s.desc[c.d2] == Desc(Status(h), false, true, 0)
    && s.ops[h] == Command(c.req.write, c.req.block)
    && s.info[h].buf == Some(c.req.buf)
    && s.info[h].status == c.status && (c.phase == Waiting || c.phase == Working ==> c.status == PENDING)
    && (c.phase == Over ==> c.status == 0)
    && (c.req.buf in s.busy <==> c.phase != Over)
  }

  /** A descriptor is free exactly when no request under way has it. */
  predicate DescOk(s: State, d: nat)
    requires Shaped(s) && d < NUM
  {
    && (s.free[d] <==> d !in s.owner)
    && (d in s.owner ==>
          s.owner[d] in s.chains && (d == s.owner[d] || d == s.chains[s.owner[d]].d1 || d == s.chains[s.owner[d]].d2))
  }

  /** The queue `q` holds exactly the requests in phase `ph`, each once. */
  predicate Queue(s: State, q: seq<nat>, ph: Phase) {
    && (forall k | 0 <= k < |q| :: q[k] in s.chains && s.chains[q[k]].phase == ph)
    && Distinct(q)
    && forall h | h in s.chains && s.chains[h].phase == ph :: h in q
  }

  /** From position `n` on, the ring holds the queue. */
  predicate Ring(ring: seq<nat>, n: nat, q: seq<nat>) {
    |ring| == NUM && |q| <= NUM && forall k: nat | k < |q| :: ring[(n + k) % NUM] == q[k]
  }

  /** The requests under way and their descriptors. */
  predicate ChainsOk(s: State) {
    && Shaped(s)
    && (forall h | h in s.chains :: ChainOk(s, h))
    && (forall d: nat | d < NUM :: DescOk(s, d))
    && forall g, h | g in s.chains && h in s.chains && g != h :: s.chains[g].req.buf != s.chains[h].req.buf
  }

  /** The two rings and the wrapped indices. */
  predicate RingsOk(s: State) {
    && Queue(s, s.waiting, Waiting) && Queue(s, s.posted, Posted)
    && Ring(s.avail, s.nTaken, s.waiting) && Ring(s.used, s.nSeen, s.posted)
    && s.taken == s.nTaken % WRAP && s.availIdx == (s.nTaken + |s.waiting|) % WRAP
    && s.seen == s.nSeen % WRAP && s.usedIdx == (s.nSeen + |s.posted|) % WRAP
  }

  predicate Inv(s: State) {
    ChainsOk(s) && RingsOk(s)
  }

  // ----- rings -----

  lemma IndexWraps(n: nat)
    ensures n % WRAP % NUM == n % NUM && (n % WRAP + 1) % WRAP == (n + 1) % WRAP
  {
    assert n == n / WRAP * WRAP + n % WRAP;
    assert n / WRAP * WRAP == n / WRAP * 0x2000 * NUM;
  }

  /** The wrapped indices differ exactly when the queue is not empty. */
  lemma QueueSeen(n: nat, k: nat)
    requires k <= NUM
    ensures n % WRAP != (n + k) % WRAP <==> k > 0
  {
  }

  lemma RingPush(ring: seq<nat>, n: nat, q: seq<nat>, h: nat)
    requires Ring(ring, n, q) && |q| < NUM
    ensures Ring(ring[(n + |q|) % NUM := h], n, q + [h])
  {
    var ring' := ring[(n + |q|) % NUM := h];
    forall k: nat | k < |q|
      ensures ring'[(n + k) % NUM] == q[k]
    {
      SlotsApart(n + k, n + |q|);
    }
  }

  lemma SlotsApart(a: nat, b: nat)
    requires a < b < a + NUM
    ensures a % NUM != b % NUM
  {
  }

  lemma RingPop(ring: seq<nat>, n: nat, q: seq<nat>)
    requires Ring(ring, n, q) && q != []
    ensures ring[n % NUM] == q[0] && Ring(ring, n + 1, q[1..])
  {
    assert ring[(n + 0) % NUM] == q[0];
    forall k: nat | k < |q| - 1
      ensures ring[(n + 1 + k) % NUM] == q[1..][k]
    {
      assert ring[(n + (k + 1)) % NUM] == q[k + 1];
    }
  }

  // ----- the invariant is kept -----

  lemma QueueRoom(s: State, q: seq<nat>, ph: Phase, h: nat)
    requires ChainsOk(s) && Queue(s, q, ph) && h < NUM && h !in q
    ensures |q| < NUM
  {
    var q', all := q + [h], [0, 1, 2, 3, 4, 5, 6, 7];
    forall k | 0 <= k < |q'|
      ensures q'[k] in all
    {
      HeadBound(s, q, ph, h, k);
      assert all[q'[k]] == q'[k];
    }
    Pigeonhole(q', all);
  }

  lemma HeadBound(s: State, q: seq<nat>, ph: Phase, h: nat, k: nat)
    requires ChainsOk(s) && Queue(s, q, ph) && h < NUM && k < |q| + 1
    ensures (q + [h])[k] < NUM
  {
    assert k < |q| ==> ChainOk(s, q[k]);
  }

  /** A free descriptor is no part of any request. */
  lemma FreeIsNew(s: State, d: nat)
    requires ChainsOk(s) && d < NUM && s.free[d]
    ensures d !in s.owner && d !in s.chains
  {
    assert DescOk(s, d);
    assert d in s.chains ==> ChainOk(s, d);
  }

  /** The request just made has its three descriptors. */
  lemma SubmitNew(s: State, h: nat, d1: nat, d2: nat, req: Request, s': State)
    requires SubmitStep(s, h, d1, d2, req, s')
    ensures Shaped(s') && h in s'.chains && ChainOk(s', h)
  {
    assert s'.chains[h] == Chain(d1, d2, req, Waiting, PENDING);
  }

  /** A request under way keeps its own. */
  lemma SubmitOld(s: State, h: nat, d1: nat, d2: nat, req: Request, s': State, g: nat)
    requires ChainsOk(s) && SubmitStep(s, h, d1, d2, req, s') && g in s.chains
    ensures Shaped(s') && g != h && g in s'.chains && ChainOk(s', g)
  {
    FreeIsNew(s, h);
    FreeIsNew(s, d1);
    FreeIsNew(s, d2);
    assert ChainOk(s, g);
    hide ChainsOk, DescOk;
    var c := s.chains[g];
    assert s'.chains[g] == c && c.req.buf != req.buf;
    assert {g, c.d1, c.d2} !! {h, d1, d2};
  }

  lemma SubmitChain(s: State, h: nat, d1: nat, d2: nat, req: Request, s': State, g: nat)
    requires ChainsOk(s) && SubmitStep(s, h, d1, d2, req, s') && g in s'.chains
    ensures ChainOk(s', g)
  {
    hide ChainsOk, ChainOk, DescOk;
    if g == h {
      SubmitNew(s, h, d1, d2, req, s');
    } else {
      SubmitOld(s, h, d1, d2, req, s', g);
    }
  }

  lemma SubmitDesc(s: State, h: nat, d1: nat, d2: nat, req: Request, s': State, d: nat)
    requires ChainsOk(s) && SubmitStep(s, h, d1, d2, req, s') && d < NUM
    ensures DescOk(s', d)
  {
    hide ChainOk;
    FreeIsNew(s, h);
    assert DescOk(s, d);
  }

  lemma SubmitChains(s: State, h: nat, d1: nat, d2: nat, req: Request, s': State)
    requires ChainsOk(s) && SubmitStep(s, h, d1, d2, req, s')
    ensures ChainsOk(s')
  {
    hide ChainOk, DescOk;
    forall g | g in s'.chains
      ensures ChainOk(s', g)
    {
      SubmitChain(s, h, d1, d2, req, s', g);
    }
    forall d: nat | d < NUM
      ensures DescOk(s', d)
    {
      SubmitDesc(s, h, d1, d2, req, s', d);
    }
  }

  lemma SubmitRings(s: State, h: nat, d1: nat, d2: nat, req: Request, s': State)
    requires Inv(s) && SubmitStep(s, h, d1, d2, req, s')
    ensures RingsOk(s')
  {
    hide Ring, ChainsOk;
    FreeIsNew(s, h);
    QueueRoom(s, s.waiting, Waiting, h);
    RingPush(s.avail, s.nTaken, s.waiting, h);
    IndexWraps(s.nTaken + |s.waiting|);
    QueueAdds(s, s', h);
  }

  /** A new request joins one queue and no other. */
  lemma QueueAdds(s: State, s': State, h: nat)
    requires Queue(s, s.waiting, Waiting) && Queue(s, s.posted, Posted) && h !in s.chains && h in s'.chains
    requires s'.chains[h].phase == Waiting
    requires s'.chains == s.chains[h := s'.chains[h]] && s'.waiting == s.waiting + [h] && s'.posted == s.posted
    ensures Queue(s', s'.waiting, Waiting) && Queue(s', s'.posted, Posted)
  {
  }

  /** The device finds the oldest waiting request in the slot it looks at. */
  lemma TakeFinds(s: State)
    requires Inv(s)
    ensures s.taken != s.availIdx <==> s.waiting != []
    ensures s.waiting != [] ==>
              && s.avail[s.taken % NUM] == s.waiting[0] && s.waiting[0] in s.chains
              && s.chains[s.waiting[0]].phase == Waiting
  {
    hide ChainsOk;
    QueueSeen(s.nTaken, |s.waiting|);
    IndexWraps(s.nTaken);
    if s.waiting != [] {
      RingPop(s.avail, s.nTaken, s.waiting);
    }
  }

  /** Request `h` is now in phase `ph`; of all requests, only its phase and status have changed. */
  predicate Moved(s: State, s': State, h: nat, ph: Phase)
    requires h in s.chains
  {
    h in s'.chains && s'.chains == s.chains[h := s.chains[h].(phase := ph, status := s'.chains[h].status)]
  }

  lemma PhaseChains(s: State, s': State, h: nat, ph: Phase)
    requires ChainsOk(s) && Shaped(s') && h in s.chains && Moved(s, s', h, ph)
    requires s'.owner == s.owner && s'.desc == s.desc && s'.ops == s.ops && s'.free == s.free
    requires forall g | g in s.chains && g != h && g < NUM ::
               s'.info[g] == s.info[g] && (s.chains[g].req.buf in s'.busy <==> s.chains[g].req.buf in s.busy)
    requires ChainOk(s', h)
    ensures ChainsOk(s')
  {
    forall g | g in s'.chains
      ensures ChainOk(s', g)
    {
      assert ChainOk(s, g);
    }
    forall d: nat | d < NUM
      ensures DescOk(s', d)
    {
      assert DescOk(s, d);
    }
  }

  lemma TakeChains(s: State, s': State, h: nat)
    requires ChainsOk(s) && TakeStep(s, s') && s.avail[s.taken % NUM] == h && h in s.chains
    requires s.chains[h].phase == Waiting
    ensures ChainsOk(s')
  {
    assert ChainOk(s, h);
    hide ChainsOk;
    PhaseChains(s, s', h, Working);
  }

  lemma TakeRings(s: State, s': State, h: nat)
    requires RingsOk(s) && TakeStep(s, s') && s.waiting != [] && s.avail[s.taken % NUM] == h == s.waiting[0]
    requires s.chains[h].phase == Waiting
    ensures RingsOk(s')
  {
    hide Ring, Queue;
    RingPop(s.avail, s.nTaken, s.waiting);
    IndexWraps(s.nTaken);
    QueueDrops(s, s.waiting, Waiting, s', Working);
    QueueKeeps(s, s.posted, Posted, s', h, Working);
  }

  lemma TakeKeeps(s: State, s': State)
    requires Inv(s) && TakeStep(s, s')
    ensures Inv(s')
  {
    hide ChainsOk, RingsOk;
    TakeFinds(s);
    TakeChains(s, s', s.waiting[0]);
    TakeRings(s, s', s.waiting[0]);
  }

  /** The oldest request of a queue leaves it. */
  lemma QueueDrops(s: State, q: seq<nat>, ph: Phase, s': State, to: Phase)
    requires Queue(s, q, ph) && q != [] && to != ph && s'.chains == s.chains[q[0] := s.chains[q[0]].(phase := to)]
    ensures Queue(s', q[1..], ph)
  {
  }

  /** A request that neither leaves nor joins a queue. */
  lemma QueueKeeps(s: State, q: seq<nat>, ph: Phase, s': State, h: nat, to: Phase)
    requires Queue(s, q, ph) && h in s.chains && s.chains[h].phase != ph && to != ph && Moved(s, s', h, to)
    ensures Queue(s', q, ph)
  {
  }

  lemma QueueJoins(s: State, q: seq<nat>, ph: Phase, s': State, h: nat)
    requires Queue(s, q, ph) && h in s.chains && s.chains[h].phase != ph && Moved(s, s', h, ph)
    ensures Queue(s', q + [h], ph) && h !in q
  {
  }

  /** The device, following the chain of a request it has taken, finds that very request. */
  lemma DecodeFinds(s: State, h: nat)
    requires ChainsOk(s) && h in s.chains
    ensures Decode(s, h) == Some(s.chains[h].req) && StatusOf(s, h) == h
  {
    assert ChainOk(s, h);
  }

  lemma CompleteChains(s: State, h: nat, status: nat, s': State)
    requires ChainsOk(s) && CompleteStep(s, h, status, s')
    ensures ChainsOk(s')
  {
    DecodeFinds(s, h);
    assert ChainOk(s, h);
    hide ChainsOk, StatusOf;
    PhaseChains(s, s', h, Posted);
  }

  lemma CompleteRings(s: State, h: nat, status: nat, s': State)
    requires Inv(s) && CompleteStep(s, h, status, s')
    ensures RingsOk(s')
  {
    hide Ring, Queue, ChainsOk, StatusOf;
    HeadOk(s, h);
    QueueJoins(s, s.posted, Posted, s', h);
    QueueRoom(s, s.posted, Posted, h);
    QueueKeeps(s, s.waiting, Waiting, s', h, Posted);
    RingPush(s.used, s.nSeen, s.posted, h);
    IndexWraps(s.nSeen + |s.posted|);
  }

  lemma HeadOk(s: State, h: nat)
    requires ChainsOk(s) && h in s.chains
    ensures h < NUM
  {
    assert ChainOk(s, h);
  }

  /** The interrupt handler finds the oldest posted request, done and with its own buffer, and the status
      the device reported for it: it panics exactly when that is not 0. */
  lemma InterruptFinds(s: State)
    requires Inv(s)
    ensures s.seen != s.usedIdx <==> s.posted != []
    ensures s.posted != [] ==>
              var h := s.used[s.seen % NUM];
              && h == s.posted[0] && h < NUM && h in s.chains
              && s.info[h] == Info(Some(s.chains[h].req.buf), s.chains[h].status) && s.chains[h].phase == Posted
  {
    QueueSeen(s.nSeen, |s.posted|);
    IndexWraps(s.nSeen);
    if s.posted != [] {
      RingPop(s.used, s.nSeen, s.posted);
      assert ChainOk(s, s.posted[0]);
    }
  }

  lemma InterruptChains(s: State, s': State, h: nat)
    requires ChainsOk(s) && InterruptStep(s, s') && s.used[s.seen % NUM] == h && h in s.chains
    requires s.chains[h].phase == Posted
    ensures ChainsOk(s')
  {
    assert ChainOk(s, h);
    OneBuffer(s, h);
    hide ChainsOk;
    PhaseChains(s, s', h, Over);
  }

  lemma OneBuffer(s: State, h: nat)
    requires ChainsOk(s) && h in s.chains
    ensures forall g | g in s.chains && g != h :: s.chains[g].req.buf != s.chains[h].req.buf
  {
  }

  lemma InterruptRings(s: State, s': State, h: nat)
    requires RingsOk(s) && InterruptStep(s, s') && s.posted != [] && s.used[s.seen % NUM] == h == s.posted[0]
    requires s.chains[h].phase == Posted
    ensures RingsOk(s')
  {
    hide Ring, Queue;
    RingPop(s.used, s.nSeen, s.posted);
    IndexWraps(s.nSeen);
    QueueDrops(s, s.posted, Posted, s', Over);
    QueueKeeps(s, s.waiting, Waiting, s', h, Over);
  }

  lemma InterruptKeeps(s: State, s': State)
    requires Inv(s) && InterruptStep(s, s')
    ensures Inv(s')
  {
    hide ChainsOk, RingsOk;
    InterruptFinds(s);
    InterruptChains(s, s', s.posted[0]);
    InterruptRings(s, s', s.posted[0]);
  }

  /** Which descriptors `free_chain` releases. */
  lemma FinishWhich(s: State, h: nat, s': State)
    requires ChainsOk(s) && FinishStep(s, h, s')
    ensures var c := s.chains[h];
            && Apart(h, c.d1, c.d2) && s'.chains == s.chains - {h} && s'.owner == s.owner - {h, c.d1, c.d2}
            && s'.free == s.free[h := true][c.d1 := true][c.d2 := true]
            && s'.desc == s.desc[h := UNUSED][c.d1 := UNUSED][c.d2 := UNUSED]
            && s'.info == s.info[h := s.info[h].(buf := None)] && s'.ops == s.ops && s'.busy == s.busy && Shaped(s')
  {
    assert ChainOk(s, h);
  }

  lemma FinishChain(s: State, h: nat, s': State, g: nat)
    requires ChainsOk(s) && FinishStep(s, h, s') && g in s'.chains && Shaped(s')
    ensures ChainOk(s', g)
  {
    FinishWhich(s, h, s');
    assert ChainOk(s, g) && ChainOk(s, h);
    hide ChainsOk, FinishStep;
  }

  lemma FinishDesc(s: State, h: nat, s': State, d: nat)
    requires ChainsOk(s) && FinishStep(s, h, s') && d < NUM && Shaped(s')
    ensures DescOk(s', d)
  {
    FinishWhich(s, h, s');
    assert ChainOk(s, h) && DescOk(s, d);
    hide ChainsOk, FinishStep;
  }

  lemma FinishChains(s: State, h: nat, s': State)
    requires ChainsOk(s) && FinishStep(s, h, s')
    ensures ChainsOk(s')
  {
    hide ChainOk, DescOk;
    FinishWhich(s, h, s');
    forall g | g in s'.chains
      ensures ChainOk(s', g)
    {
      FinishChain(s, h, s', g);
    }
    forall d: nat | d < NUM
      ensures DescOk(s', d)
    {
      FinishDesc(s, h, s', d);
    }
  }

  lemma FinishRings(s: State, h: nat, s': State)
    requires RingsOk(s) && FinishStep(s, h, s') && s.chains[h].phase == Over
    ensures RingsOk(s')
  {
    hide Ring;
  }

  lemma OverIsIdle(s: State, h: nat)
    requires ChainsOk(s) && h in s.chains && s.chains[h].req.buf !in s.busy
    ensures s.chains[h].phase == Over
  {
    assert ChainOk(s, h);
  }

  lemma NextKeeps(s: State, e: Event, s': State)
    requires Inv(s) && Next(s, e, s')
    ensures Inv(s')
  {
    hide ChainsOk, RingsOk;
    match e
    case Submit(h, d1, d2, req) =>
      SubmitChains(s, h, d1, d2, req, s');
      SubmitRings(s, h, d1, d2, req, s');
    case Take => TakeKeeps(s, s');
    case Complete(h, status) =>
      CompleteChains(s, h, status, s');
      CompleteRings(s, h, status, s');
    case Interrupt => InterruptKeeps(s, s');
    case Finish(h) =>
      OverIsIdle(s, h);
      FinishChains(s, h, s');
      FinishRings(s, h, s');
  }

  predicate IsRun(ss: seq<State>, es: seq<Event>) {
    |ss| == |es| + 1 && Start(ss[0]) && forall i | 0 <= i < |es| :: Next(ss[i], es[i], ss[i + 1])
  }

  lemma {:induction false} RunInv(ss: seq<State>, es: seq<Event>, i: nat)
    requires IsRun(ss, es) && i < |ss|
    ensures Inv(ss[i])
  {
    if i > 0 {
      hide Next, Inv;
      RunInv(ss, es, i - 1);
      NextKeeps(ss[i - 1], es[i - 1], ss[i]);
    }
  }

  /** Descriptor `d` is one of the three of the request at `h`. */
  predicate Has(s: State, h: nat, d: nat) {
    h in s.chains && (d == h || d == s.chains[h].d1 || d == s.chains[h].d2)
  }

  /** The device is done with request `h`, and the handler's record of it names its buffer and the status
      reported. */
  predicate DoneFor(s: State, h: nat) {
    && Shaped(s) && h < NUM && h in s.chains && s.chains[h].phase == Posted
    && s.info[h] == Info(Some(s.chains[h].req.buf), s.chains[h].status)
  }

  /** What was asked for stays so until the request is finished. */
  lemma RequestKept(s: State, e: Event, s': State, h: nat)
    requires Inv(s) && Next(s, e, s') && h in s.chains && e != Finish(h)
    ensures h in s'.chains && s'.chains[h].req == s.chains[h].req
  {
    hide RingsOk;
    if e.Submit? {
      FreeIsNew(s, e.h);
    }
    hide ChainsOk;
  }

  /** A request made and not finished yet is what the device finds; and it is finished only when the device has
      reported that it succeeded. */
  lemma {:induction false} Served(ss: seq<State>, es: seq<Event>, i: nat, j: nat)
    requires IsRun(ss, es) && i < j < |ss| && es[i].Submit? && forall k | i < k < j :: es[k] != Finish(es[i].h)
    ensures Shaped(ss[j]) && es[i].h in ss[j].chains && Decode(ss[j], es[i].h) == Some(es[i].req)
    ensures ss[j].chains[es[i].h].req == es[i].req
    ensures j < |es| && es[j] == Finish(es[i].h) ==>
              ss[j].chains[es[i].h].phase == Over && ss[j].info[es[i].h] == Info(Some(es[i].req.buf), 0)
  {
    hide Next, Decode, RingsOk;
    RunInv(ss, es, j);
    if i + 1 == j {
      Submitted(ss[i], es[i], ss[j]);
    } else {
      Served(ss, es, i, j - 1);
      RunInv(ss, es, j - 1);
      RequestKept(ss[j - 1], es[j - 1], ss[j], es[i].h);
    }
    DecodeFinds(ss[j], es[i].h);
    assert ChainOk(ss[j], es[i].h);
    if j < |es| && es[j] == Finish(es[i].h) {
      FinishGuard(ss[j], es[i].h, ss[j + 1]);
    }
  }

  lemma Submitted(s: State, e: Event, s': State)
    requires Next(s, e, s') && e.Submit?
    ensures e.h in s'.chains && s'.chains[e.h].req == e.req
  {
  }

  lemma FinishGuard(s: State, h: nat, s': State)
    requires Next(s, Finish(h), s')
    ensures h in s.chains && s.chains[h].req.buf !in s.busy
  {
  }

  /** At every point of every run: a descriptor is in use exactly when it lies in a request under way,
      and in only one; the device, following a chain it has been given, decodes the request that was
      made; however the 16-bit indices have wrapped, the slot the device or the interrupt handler looks
      at next holds the oldest entry not yet consumed, if there is one; and the handler finds there a
      request that is done, with its own buffer and the status reported for it. */
  lemma VirtioSafe(ss: seq<State>, es: seq<Event>, i: nat)
    requires IsRun(ss, es) && i < |ss|
    ensures Shaped(ss[i])
    ensures forall d: nat | d < NUM :: !ss[i].free[d] <==> exists h: nat :: Has(ss[i], h, d)
    ensures forall d: nat, g: nat, h: nat | Has(ss[i], g, d) && Has(ss[i], h, d) :: g == h
    ensures forall h: nat | h in ss[i].chains :: Decode(ss[i], h) == Some(ss[i].chains[h].req)
    ensures ss[i].taken != ss[i].availIdx <==> ss[i].waiting != []
    ensures ss[i].waiting != [] ==> ss[i].avail[ss[i].taken % NUM] == ss[i].waiting[0]
    ensures ss[i].seen != ss[i].usedIdx <==> ss[i].posted != []
    ensures ss[i].posted != [] ==> ss[i].used[ss[i].seen % NUM] == ss[i].posted[0] && DoneFor(ss[i], ss[i].posted[0])
  {
    var s := ss[i];
    RunInv(ss, es, i);
    TakeFinds(s);
    InterruptFinds(s);
    hide Decode, RingsOk;
    forall d: nat, h: nat | Has(s, h, d)
      ensures d < NUM && !s.free[d] && d in s.owner && s.owner[d] == h
    {
      HasOwner(s, h, d);
    }
    forall d: nat | d < NUM && !s.free[d]
      ensures d in s.owner && Has(s, s.owner[d], d)
    {
      assert DescOk(s, d);
    }
    forall h: nat | h in s.chains
      ensures Decode(s, h) == Some(s.chains[h].req)
    {
      DecodeFinds(s, h);
    }
  }

  lemma HasOwner(s: State, h: nat, d: nat)
    requires ChainsOk(s) && Has(s, h, d)
    ensures d < NUM && !s.free[d] && d in s.owner && s.owner[d] == h
  {
    assert ChainOk(s, h);
    assert DescOk(s, d);
  }

  // ----- the driver's descriptor code -----

  function FreeCount(free: seq<bool>): nat {
    if free == [] then 0 else FreeCount(free[1..]) + if free[0] then 1 else 0
  }

  lemma {:induction false} CountUpdate(free: seq<bool>, i: nat, v: bool)
    requires i < |free| && free[i] != v
    ensures FreeCount(free[i := v]) == FreeCount(free) + if v then 1 else -1
  {
    var free' := free[i := v];
    if i > 0 {
      CountUpdate(free[1..], i - 1, v);
      assert free'[1..] == free[1..][i - 1 := v];
    } else {
      assert free'[1..] == free[1..];
    }
  }

  lemma {:induction false} CountNone(free: seq<bool>)
    requires forall k | 0 <= k < |free| :: !free[k]
    ensures FreeCount(free) == 0
  {
    if free != [] {
      CountNone(free[1..]);
    }
  }

  lemma {:induction false} CountAll(free: seq<bool>)
    requires forall k | 0 <= k < |free| :: free[k]
    ensures FreeCount(free) == |free|
  {
    if free != [] {
      CountAll(free[1..]);
    }
  }

  /** `free` without the descriptors in `idx`. */
  function Without(free: seq<bool>, idx: seq<nat>): (r: seq<bool>)
    ensures |r| == |free|
  {
    seq(|free|, (d: nat) requires d < |free| => free[d] && d !in idx)
  }

  class Driver {
    const free: array<bool>
    const desc: array<Desc>

    ghost predicate Valid() {
      free.Length == NUM && desc.Length == NUM
    }

    constructor ()
      ensures Valid() && fresh(free) && fresh(desc) && FreeCount(free[..]) == NUM
    {
      free := new bool[NUM](_ => true);
      desc := new Desc[NUM](_ => UNUSED);
      new;
      CountAll(free[..]);
    }

    /** The first free descriptor, now in use; -1 if there is none. */
    method AllocDesc() returns (r: int)
      requires Valid()
      modifies free
      ensures r == -1 ==> FreeCount(old(free[..])) == 0 && free[..] == old(free[..])
      ensures r != -1 ==> 0 <= r < NUM && old(free[..])[r] && free[..] == old(free[..])[r := false]
                          && FreeCount(free[..]) + 1 == FreeCount(old(free[..]))
    {
      var i := 0;
      while i < NUM
        invariant 0 <= i <= NUM && free[..] == old(free[..]) && forall k | 0 <= k < i :: !free[k]
      {
        if free[i] {
          CountUpdate(free[..], i, false);
          free[i] := false;
          return i;
        }
        i := i + 1;
      }
      CountNone(free[..]);
      return -1;
    }

    /** Mark a descriptor free; false is a panic. */
    method FreeDesc(i: nat) returns (ok: bool)
      requires Valid()
      modifies free, desc
      ensures ok == (i < NUM && !old(free[..])[i])
      ensures !ok ==> free[..] == old(free[..]) && desc[..] == old(desc[..])
      ensures ok ==> free[..] == old(free[..])[i := true] && desc[..] == old(desc[..])[i := UNUSED]
                     && FreeCount(free[..]) == FreeCount(old(free[..])) + 1
    {
      if i >= NUM || free[i] {
        return false;
      }
      CountUpdate(free[..], i, true);
      desc[i] := UNUSED;
      free[i] := true;
      ok := true;
    }

    /** Three free descriptors, now in use: possible exactly when there are three. Otherwise those
        taken are given back. */
    method Alloc3() returns (r: int, idx: seq<nat>)
      requires Valid() && forall d | 0 <= d < NUM :: free[d] ==> desc[d] == UNUSED
      modifies free, desc
      ensures r == (if FreeCount(old(free[..])) >= 3 then 0 else -1) && desc[..] == old(desc[..])
      ensures r == -1 ==> free[..] == old(free[..])
      ensures r == 0 ==> |idx| == 3 && Apart(idx[0], idx[1], idx[2]) && (forall k | 0 <= k < 3 :: old(free[..])[idx[k]])
                         && free[..] == Without(old(free[..]), idx)
    {
      ghost var f0 := free[..];
      idx := [];
      assert free[..] == Without(f0, idx);
      for i := 0 to 3
        invariant |idx| == i && Distinct(idx) && free[..] == Without(f0, idx) && desc[..] == old(desc[..])
        invariant (forall k | 0 <= k < i :: idx[k] < NUM && f0[idx[k]]) && FreeCount(f0) == FreeCount(free[..]) + i
      {
        ghost var was := free[..];
        var d := AllocDesc();
        if d < 0 {
          GiveBack(idx, f0);
          return -1, idx;
        }
        assert free[..] == Without(f0, idx + [d]);
        idx := idx + [d];
      }
      r := 0;
    }

    /** Free the descriptors in `idx`, which were all that had been taken since `f0`. */
    method GiveBack(idx: seq<nat>, ghost f0: seq<bool>)
      requires Valid() && |f0| == NUM && Distinct(idx) && free[..] == Without(f0, idx)
      requires forall k | 0 <= k < |idx| :: idx[k] < NUM && f0[idx[k]] && desc[idx[k]] == UNUSED
      modifies free, desc
      ensures free[..] == f0 && desc[..] == old(desc[..])
    {
      assert idx[0..] == idx;
      for j := 0 to |idx|
        invariant free[..] == Without(f0, idx[j..]) && desc[..] == old(desc[..])
      {
        assert idx[j] in idx[j..];
        var ok := FreeDesc(idx[j]);
        assert desc[..] == old(desc[..]);
        assert idx[j..] == [idx[j]] + idx[j + 1..] && idx[j] !in idx[j + 1..];
        assert free[..] == Without(f0, idx[j + 1..]);
      }
      assert idx[|idx|..] == [];
    }

    /** Free the chain that starts at `h`: exactly its three descriptors, and no panic. */
    method FreeChain(h: nat, ghost d1: nat, ghost d2: nat)
      requires Valid() && Apart(h, d1, d2) && !free[h] && !free[d1] && !free[d2]
      requires desc[h].more && desc[h].next == d1 && desc[d1].more && desc[d1].next == d2 && !desc[d2].more
      modifies free, desc
      ensures free[..] == old(free[..])[h := true][d1 := true][d2 := true]
      ensures desc[..] == old(desc[..])[h := UNUSED][d1 := UNUSED][d2 := UNUSED]
    {
      ghost var f0, e0 := free[..], desc[..];
      var i := h;
      ghost var n := 0;
      while true
        invariant 0 <= n <= 2 && i == (if n == 0 then h else if n == 1 then d1 else d2)
        invariant free[..] == (if n == 0 then f0 else if n == 1 then f0[h := true] else f0[h := true][d1 := true])
        invariant desc[..] == (if n == 0 then e0 else if n == 1 then e0[h := UNUSED] else e0[h := UNUSED][d1 := UNUSED])
        decreases 3 - n
      {
        var more, next := desc[i].more, desc[i].next;
        var ok := FreeDesc(i);
        assert ok;
        if !more {
          return;
        }
        i := next;
        n := n + 1;
      }
    }
  }
}
