/** Which bytes a call on a pipe is responsible for: what a write puts is what it was given, in order. */
module PipeCalls {
  import opened Basics
  import opened Words
  import opened Pipe

  /** What a write under way has yet to put. */
  function Rest(pc: Pc): Option<seq<Byte>> {
    match pc
    case WCheck(rest) => Some(rest)
    case WPut(rest) => Some(rest)
    case Enter(next) => Rest(next)
    case Wake(chan, next) => Rest(next)
    case Scanning(next) => Rest(next)
    case Doze(chan, next) => Rest(next)
    case Sleeping(next) => Rest(next)
    case _ => None
  }

  /** How many bytes a read under way may still take. */
  function Left(pc: Pc): Option<nat> {
    match pc
    case RCheck(n) => Some(n)
    case RCopy(n) => Some(n)
    case Enter(next) => Left(next)
    case Wake(chan, next) => Left(next)
    case Scanning(next) => Left(next)
    case Doze(chan, next) => Left(next)
    case Sleeping(next) => Left(next)
    case _ => None
  }

  /** The bytes of `all` that belong to call `k`, in order. */
  function Select(all: seq<Byte>, whose: seq<nat>, k: nat): seq<Byte>
    requires |whose| == |all|
  {
    if all == [] then []
    else
      var n := |all| - 1;
      Select(all[..n], whose[..n], k) + if whose[n] == k then [all[n]] else []
  }

  lemma SelectMore(all: seq<Byte>, whose: seq<nat>, b: Byte, c: nat, k: nat)
    requires |whose| == |all|
    ensures Select(all + [b], whose + [c], k) == Select(all, whose, k) + if c == k then [b] else []
  {
    assert (all + [b])[..|all|] == all && (whose + [c])[..|whose|] == whose;
  }

  lemma {:induction false} SelectNone(all: seq<Byte>, whose: seq<nat>, k: nat)
    requires |whose| == |all| && forall j | 0 <= j < |whose| :: whose[j] != k
    ensures Select(all, whose, k) == []
  {
    if all != [] {
      SelectNone(all[..|all| - 1], whose[..|all| - 1], k);
    }
  }

  // ----- what every reachable state satisfies -----

  predicate Shaped(s: Prog) {
    && |s.pc| == |s.m.mode| == |s.h.call| && |s.h.sentBy| == |s.m.d.sent| && |s.h.gotBy| == |s.m.d.got|
    && (forall j | 0 <= j < |s.h.sentBy| :: s.h.sentBy[j] < |s.h.given|)
    && forall j | 0 <= j < |s.h.gotBy| :: s.h.gotBy[j] < |s.h.asked|
  }

  /** The bytes that write `k` has put, and those that read `k` has taken. */
  function PutBy(s: Prog, k: nat): seq<Byte>
    requires Shaped(s)
  {
    Select(s.m.d.sent, s.h.sentBy, k)
  }

  function TakenBy(s: Prog, k: nat): seq<Byte>
    requires Shaped(s)
  {
    Select(s.m.d.got, s.h.gotBy, k)
  }

  /** What a write under way has put and what it has yet to put make up what it was given. */
  predicate WriterOk(s: Prog, p: nat)
    requires Shaped(s) && p < |s.pc|
  {
    var k := s.h.call[p];
    Rest(s.pc[p]).Some? ==>
      k < |s.h.given| && s.h.given[k].p == p && PutBy(s, k) + Rest(s.pc[p]).value == s.h.given[k].data
  }

  /** What a read under way has taken and may still take make up what it asked for. */
  predicate ReaderOk(s: Prog, p: nat)
    requires Shaped(s) && p < |s.pc|
  {
    var k := s.h.call[p];
    Left(s.pc[p]).Some? ==>
      k < |s.h.asked| && s.h.asked[k].p == p && |TakenBy(s, k)| + Left(s.pc[p]).value == s.h.asked[k].n
  }

  predicate CallsOk(s: Prog) {
    && Shaped(s)
    && (forall p: nat | p < |s.pc| :: WriterOk(s, p) && ReaderOk(s, p))
    && (forall k: nat | k < |s.h.given| :: PutBy(s, k) <= s.h.given[k].data)
    && forall k: nat | k < |s.h.asked| :: |TakenBy(s, k)| <= s.h.asked[k].n
  }

  /** The process that a step is of. */
  function Actor(a: Action): nat {
    match a
    case Does(e) => e.t
    case Move(p) => p
    case Mark(p) => p
  }

  predicate Starts(s: Prog, a: Action) {
    a.Move? && a.p < |s.pc| && s.pc[a.p].Idle?
  }

  predicate Puts(s: Prog, a: Action) {
    a.Does? && a.e.Update? && a.e.t < |s.pc| && s.pc[a.e.t].WPut?
  }

  predicate Takes(s: Prog, a: Action) {
    a.Does? && a.e.Update? && a.e.t < |s.pc| && s.pc[a.e.t].RCopy?
  }

  /** A step that starts no call and moves no byte: no program has more or less to do than before, or it
      gives up. */
  lemma QuietStep(s: Prog, a: Action, s': Prog)
    requires Shaped(s) && Next(s, a, s') && !Starts(s, a) && !Puts(s, a) && !Takes(s, a)
    ensures s'.h == s.h && s'.m.d.sent == s.m.d.sent && s'.m.d.got == s.m.d.got && Actor(a) < |s.pc| == |s'.pc|
    ensures forall p: nat | p < |s.pc| && p != Actor(a) :: s'.pc[p] == s.pc[p]
    ensures Rest(s'.pc[Actor(a)]) == Rest(s.pc[Actor(a)]) || Rest(s'.pc[Actor(a)]) == None
    ensures Left(s'.pc[Actor(a)]) == Left(s.pc[Actor(a)]) || Left(s'.pc[Actor(a)]) == None
    ensures |s'.m.mode| == |s.m.mode|
  {
  }

  lemma QuietKeeps(s: Prog, a: Action, s': Prog)
    requires CallsOk(s) && Next(s, a, s') && !Starts(s, a) && !Puts(s, a) && !Takes(s, a)
    ensures CallsOk(s')
  {
    QuietStep(s, a, s');
    hide Next, Rest, Left, Select;
    forall p: nat | p < |s'.pc|
      ensures WriterOk(s', p) && ReaderOk(s', p)
    {
      assert WriterOk(s, p) && ReaderOk(s, p);
    }
  }

  lemma StartStep(s: Prog, p: nat, s': Prog)
    requires Shaped(s) && Next(s, Move(p), s') && Starts(s, Move(p))
    ensures Shaped(s') && s'.m == s.m && s'.pc == s.pc[p := s'.pc[p]] && s'.h.sentBy == s.h.sentBy
    ensures s'.h.gotBy == s.h.gotBy
    ensures forall q: nat | q < |s.pc| && q != p :: s'.h.call[q] == s.h.call[q]
    ensures Rest(s'.pc[p]).Some? ==> s'.h.call[p] == |s.h.given| && s'.h.asked == s.h.asked && Left(s'.pc[p]) == None
                                     && s'.h.given == s.h.given + [Writing(p, Rest(s'.pc[p]).value)]
    ensures Left(s'.pc[p]).Some? ==> s'.h.call[p] == |s.h.asked| && s'.h.given == s.h.given
                                     && s'.h.asked == s.h.asked + [Reading(p, Left(s'.pc[p]).value)]
    ensures Rest(s'.pc[p]).None? && Left(s'.pc[p]).None? ==> s'.h == s.h
  {
    var next := s'.pc[p].next;
    assert Rest(s'.pc[p]) == Rest(next) && Left(s'.pc[p]) == Left(next);
  }

  lemma StartKeeps(s: Prog, p: nat, s': Prog)
    requires CallsOk(s) && Next(s, Move(p), s') && Starts(s, Move(p))
    ensures CallsOk(s')
  {
    StartStep(s, p, s');
    hide Next, Rest, Left, Select;
    SelectNone(s.m.d.sent, s.h.sentBy, |s.h.given|);
    SelectNone(s.m.d.got, s.h.gotBy, |s.h.asked|);
    forall q: nat | q < |s'.pc|
      ensures WriterOk(s', q) && ReaderOk(s', q)
    {
      assert WriterOk(s, q) && ReaderOk(s, q);
    }
  }

  lemma PutStep(s: Prog, a: Action, s': Prog)
    requires Shaped(s) && Next(s, a, s') && Puts(s, a)
    ensures var p := Actor(a);
            && p < |s.pc| && s'.pc == s.pc[p := s'.pc[p]] && |s'.m.mode| == |s.m.mode|
            && s'.h == s.h.(sentBy := s.h.sentBy + [s.h.call[p]])
            && s'.m.d.got == s.m.d.got && Left(s'.pc[p]) == None && Rest(s.pc[p]).Some? && Rest(s'.pc[p]).Some?
            && Rest(s.pc[p]).value != [] && s'.m.d.sent == s.m.d.sent + [Rest(s.pc[p]).value[0]]
            && Rest(s'.pc[p]).value == Rest(s.pc[p]).value[1..]
  {
  }

  lemma PutKeeps(s: Prog, a: Action, s': Prog)
    requires CallsOk(s) && Next(s, a, s') && Puts(s, a)
    ensures CallsOk(s')
  {
    PutStep(s, a, s');
    hide Next, Rest, Left, Select;
    var p, b, c := Actor(a), Rest(s.pc[Actor(a)]).value[0], s.h.call[Actor(a)];
    assert WriterOk(s, p);
    assert Shaped(s');
    forall k: nat
      ensures PutBy(s', k) == PutBy(s, k) + if c == k then [b] else []
    {
      SelectMore(s.m.d.sent, s.h.sentBy, b, c, k);
    }
    forall q: nat | q < |s'.pc|
      ensures WriterOk(s', q) && ReaderOk(s', q)
    {
      assert WriterOk(s, q) && ReaderOk(s, q);
    }
    assert WriterOk(s', p);
  }

  lemma TakeStep(s: Prog, a: Action, s': Prog)
    requires Shaped(s) && Next(s, a, s') && Takes(s, a)
    ensures var p := Actor(a);
            && p < |s.pc| && s'.pc == s.pc[p := s'.pc[p]] && |s'.m.mode| == |s.m.mode|
            && s'.h == s.h.(gotBy := s.h.gotBy + [s.h.call[p]])
            && s'.m.d.sent == s.m.d.sent && Rest(s'.pc[p]) == None && Left(s.pc[p]).Some? && Left(s.pc[p]).value > 0
            && |s'.m.d.got| == |s.m.d.got| + 1 && s'.m.d.got == s.m.d.got + [s'.m.d.got[|s.m.d.got|]]
            && (Left(s'.pc[p]) == None || Left(s'.pc[p]) == Some(Left(s.pc[p]).value - 1))
  {
  }

  lemma TakeKeeps(s: Prog, a: Action, s': Prog)
    requires CallsOk(s) && Next(s, a, s') && Takes(s, a)
    ensures CallsOk(s')
  {
    TakeStep(s, a, s');
    hide Next, Rest, Left, Select;
    var p, b, c := Actor(a), s'.m.d.got[|s.m.d.got|], s.h.call[Actor(a)];
    assert ReaderOk(s, p);
    assert Shaped(s');
    forall k: nat
      ensures TakenBy(s', k) == TakenBy(s, k) + if c == k then [b] else []
    {
      SelectMore(s.m.d.got, s.h.gotBy, b, c, k);
    }
    forall q: nat | q < |s'.pc|
      ensures WriterOk(s', q) && ReaderOk(s', q)
    {
      assert WriterOk(s, q) && ReaderOk(s, q);
    }
  }

  lemma NextKeeps(s: Prog, a: Action, s': Prog)
    requires CallsOk(s) && Next(s, a, s')
    ensures CallsOk(s')
  {
    hide Next, CallsOk;
    if Starts(s, a) {
      StartKeeps(s, a.p, s');
    } else if Puts(s, a) {
      PutKeeps(s, a, s');
    } else if Takes(s, a) {
      TakeKeeps(s, a, s');
    } else {
      QuietKeeps(s, a, s');
    }
  }

  /** At every point of every run, whoever else reads and writes: the bytes that a write has put, in the order
      they were sent, are the beginning of those it was given, and a write under way has the others still to
      put; and no read takes more bytes than it asked for. */
  lemma {:induction false} CallsInOrder(ss: seq<Prog>, actions: seq<Action>, i: nat)
    requires IsRun(ss, actions) && i < |ss|
    ensures CallsOk(ss[i])
    ensures forall k: nat | k < |ss[i].h.given| :: PutBy(ss[i], k) <= ss[i].h.given[k].data
    ensures forall k: nat | k < |ss[i].h.asked| :: |TakenBy(ss[i], k)| <= ss[i].h.asked[k].n
    ensures forall p: nat | p < |ss[i].pc| :: WriterOk(ss[i], p)
  {
    if i > 0 {
      hide Next, Select, Rest, Left;
      CallsInOrder(ss, actions, i - 1);
      NextKeeps(ss[i - 1], actions[i - 1], ss[i]);
    }
  }

  // ----- the end of the file -----

  /** A read that has taken nothing yet has found bytes, or the write end closed. */
  predicate FirstOk(s: Prog, p: nat)
    requires Shaped(s) && p < |s.pc|
  {
    s.pc[p].RCopy? && TakenBy(s, s.h.call[p]) == [] ==> Cond(RD, s.m.d)
  }

  /** Only the process that has the lock changes the pipe. */
  lemma LockedData(s: Prog, a: Action, s': Prog, p: nat)
    requires BytesInv(s) && Next(s, a, s') && p < |s.pc| && HasLock(s.pc[p]) && Actor(a) != p
    ensures s'.m.d == s.m.d && s'.pc[p] == s.pc[p] && p < |s.h.call| == |s'.h.call| && s'.h.call[p] == s.h.call[p]
    ensures s'.h.gotBy == s.h.gotBy
  {
    assert ProcBytes(s, p);
    if a.Does? {
      assert ProcBytes(s, a.e.t);
    }
    hide DataOk;
  }

  lemma FirstStep(s: Prog, a: Action, s': Prog, p: nat)
    requires BytesInv(s) && CallsOk(s) && CallsOk(s') && Next(s, a, s') && p < |s.pc| == |s'.pc| && FirstOk(s, p)
    ensures FirstOk(s', p)
  {
    if s'.pc[p].RCopy? {
      if Actor(a) != p {
        assert s.pc[p] == s'.pc[p];
        LockedData(s, a, s', p);
      } else if Takes(s, a) {
        TakeStep(s, a, s');
        SelectMore(s.m.d.got, s.h.gotBy, s'.m.d.got[|s.m.d.got|], s.h.call[p], s.h.call[p]);
      } else {
        MovedOn(s, a, s', p);
      }
    }
  }

  /** The first loop of `piperead` is over. */
  lemma MovedOn(s: Prog, a: Action, s': Prog, p: nat)
    requires Shaped(s) && Next(s, a, s') && p < |s.pc| == |s'.pc| && Actor(a) == p && s'.pc[p].RCopy? && !Takes(s, a)
    requires BytesInv(s)
    ensures s'.m.d == s.m.d && s'.h == s.h && (Cond(RD, s.m.d) || s.pc[p] == s'.pc[p])
  {
    assert ProcBytes(s, p);
    hide DataOk;
  }

  /** A read of some bytes that returns none of them has found the pipe empty and its write end closed. */
  lemma EndOfFile(ss: seq<Prog>, actions: seq<Action>, i: nat, p: nat)
    requires IsRun(ss, actions) && i < |actions| && actions[i] == Move(p) && p < |ss[i].pc| && ss[i].pc[p].RCopy?
    ensures CallsOk(ss[i]) && ss[i].h.call[p] < |ss[i].h.asked|
    ensures TakenBy(ss[i], ss[i].h.call[p]) == [] && ss[i].h.asked[ss[i].h.call[p]].n > 0 ==>
              Empty(ss[i].m.d) && !ss[i].m.d.writeopen
  {
    hide DataOk, Select;
    RunFirst(ss, actions, i, p);
    assert Next(ss[i], actions[i], ss[i + 1]);
    assert ReaderOk(ss[i], p);
  }

  lemma {:induction false} RunFirst(ss: seq<Prog>, actions: seq<Action>, i: nat, p: nat)
    requires IsRun(ss, actions) && i < |ss| && p < |ss[i].pc|
    ensures CallsOk(ss[i]) && FirstOk(ss[i], p)
  {
    CallsInOrder(ss, actions, i);
    if i > 0 {
      assert Next(ss[i - 1], actions[i - 1], ss[i]);
      hide Next, CallsOk, BytesInv, FirstOk;
      RunFirst(ss, actions, i - 1, p);
      BytesInOrder(ss, actions, i - 1);
      FirstStep(ss[i - 1], actions[i - 1], ss[i], p);
    }
  }

  // ----- one writer -----

  predicate AllBy(h: History, p: nat) {
    forall k | 0 <= k < |h.given| :: h.given[k].p == p
  }

  predicate InTurn(whose: seq<nat>) {
    forall j, l | 0 <= j < l < |whose| :: whose[j] <= whose[l]
  }

  /** The calls put their bytes one after the other, and the last one may be under way. */
  predicate AloneOk(s: Prog, p: nat) {
    && |s.pc| == |s.h.call| && InTurn(s.h.sentBy)
    && (p < |s.pc| && Rest(s.pc[p]).Some? ==> s.h.call[p] == |s.h.given| - 1)
  }

  lemma AloneStep(s: Prog, a: Action, s': Prog, p: nat)
    requires CallsOk(s) && Next(s, a, s') && AllBy(s'.h, p) && (AllBy(s.h, p) ==> AloneOk(s, p))
    ensures AllBy(s.h, p) && AloneOk(s', p)
  {
    if Starts(s, a) {
      StartStep(s, a.p, s');
      assert s.h.given <= s'.h.given;
      if Rest(s'.pc[a.p]).Some? {
        assert s'.h.given[|s.h.given|].p == a.p;
      }
    } else if Puts(s, a) {
      PutStep(s, a, s');
      assert WriterOk(s, Actor(a));
    } else if Takes(s, a) {
      TakeStep(s, a, s');
    } else {
      QuietStep(s, a, s');
    }
    hide Next, Rest, Left, Select;
  }

  lemma {:induction false} RunAlone(ss: seq<Prog>, actions: seq<Action>, i: nat, p: nat)
    requires IsRun(ss, actions) && i < |ss| && AllBy(ss[i].h, p)
    ensures AloneOk(ss[i], p)
  {
    if i > 0 {
      hide Next, CallsOk, AloneOk, AllBy;
      CallsInOrder(ss, actions, i - 1);
      if AllBy(ss[i - 1].h, p) {
        RunAlone(ss, actions, i - 1, p);
      }
      AloneStep(ss[i - 1], actions[i - 1], ss[i], p);
    }
  }

  /** What the first `n` writes have put, one after the other. */
  function Joined(all: seq<Byte>, whose: seq<nat>, n: nat): seq<Byte>
    requires |whose| == |all|
  {
    if n == 0 then [] else Joined(all, whose, n - 1) + Select(all, whose, n - 1)
  }

  lemma {:induction false} JoinedMore(all: seq<Byte>, whose: seq<nat>, b: Byte, c: nat, n: nat)
    requires |whose| == |all| && forall j | 0 <= j < |whose| :: whose[j] <= c
    ensures Joined(all + [b], whose + [c], n) == Joined(all, whose, n) + if c < n then [b] else []
  {
    hide Select;
    if n > 0 {
      JoinedMore(all, whose, b, c, n - 1);
      SelectMore(all, whose, b, c, n - 1);
      var before, last := Joined(all, whose, n - 1), Select(all, whose, n - 1);
      if c < n - 1 {
        SelectNone(all, whose, n - 1);
      }
      assert before + (last + [b]) == (before + last) + [b];
    }
  }

  lemma {:induction false} JoinedAll(all: seq<Byte>, whose: seq<nat>, n: nat)
    requires |whose| == |all| && InTurn(whose) && forall j | 0 <= j < |whose| :: whose[j] < n
    ensures Joined(all, whose, n) == all
  {
    if all == [] {
      JoinedNone(n);
    } else {
      var k := |all| - 1;
      JoinedAll(all[..k], whose[..k], n);
      JoinedMore(all[..k], whose[..k], all[k], whose[k], n);
      assert all[..k] + [all[k]] == all && whose[..k] + [whose[k]] == whose;
    }
  }

  lemma {:induction false} JoinedNone(n: nat)
    ensures Joined([], [], n) == []
  {
    if n > 0 {
      JoinedNone(n - 1);
    }
  }

  /** With one writing process, what is sent is what its calls put, one after the other, each the beginning of
      what it was given. */
  lemma OneWriter(ss: seq<Prog>, actions: seq<Action>, i: nat, p: nat)
    requires IsRun(ss, actions) && i < |ss| && AllBy(ss[i].h, p)
    ensures Shaped(ss[i]) && ss[i].m.d.sent == Joined(ss[i].m.d.sent, ss[i].h.sentBy, |ss[i].h.given|)
    ensures forall k: nat | k < |ss[i].h.given| :: PutBy(ss[i], k) <= ss[i].h.given[k].data
  {
    CallsInOrder(ss, actions, i);
    RunAlone(ss, actions, i, p);
    JoinedAll(ss[i].m.d.sent, ss[i].h.sentBy, |ss[i].h.given|);
  }
}
