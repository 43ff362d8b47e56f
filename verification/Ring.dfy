/** The doubly linked ring of kernel/bio.c as two pointer arrays; `HEAD` stands for `bcache.head`. */
module Ring {
  import opened Basics

  const NBUF: nat := 30
  const HEAD: nat := NBUF

  /** The `i`th stop of a walk from the head through `next` and back to the head. */
  function At(ring: seq<nat>, i: nat): nat
    requires i <= |ring| + 1
  {
    if i == 0 || i == |ring| + 1 then HEAD else ring[i - 1]
  }

  /** Following `next` from the head visits `ring` in order, and `prev` visits it backwards. */
  predicate Linked(nx: seq<nat>, pv: seq<nat>, ring: seq<nat>) {
    && |nx| == |pv| == NBUF + 1
    && Distinct(ring)
    && (forall i | 0 <= i < |ring| :: ring[i] < NBUF)
    && forall i, j {:trigger At(ring, i), At(ring, j)} | 0 <= i <= |ring| && j == i + 1 ::
         nx[At(ring, i)] == At(ring, j) && pv[At(ring, j)] == At(ring, i)
  }

  function Without(ring: seq<nat>, p: nat): seq<nat>
    requires p < |ring|
  {
    ring[..p] + ring[p + 1..]
  }

  /** Taking the buffer at position `p` out, as `brelse` does. */
  lemma Unlink(nx: seq<nat>, pv: seq<nat>, ring: seq<nat>, p: nat)
    requires Linked(nx, pv, ring) && p < |ring|
    ensures nx[ring[p]] <= HEAD && pv[ring[p]] <= HEAD
    ensures Linked(nx[pv[ring[p]] := nx[ring[p]]], pv[nx[ring[p]] := pv[ring[p]]], Without(ring, p))
  {
    var b := ring[p];
    var before, after := At(ring, p), At(ring, p + 2);
    assert At(ring, p + 1) == b;
    assert pv[b] == before && nx[b] == after;
    var nx', pv', r' := nx[before := after], pv[after := before], Without(ring, p);
    forall i, j | 0 <= i <= |r'| && j == i + 1
      ensures nx'[At(r', i)] == At(r', j) && pv'[At(r', j)] == At(r', i)
    {
      if i < p {
        assert At(r', i) == At(ring, i) && At(r', j) == At(ring, j);
      } else if i == p {
        assert At(r', i) == At(ring, i) && At(r', j) == At(ring, j + 1);
      } else {
        assert At(r', i) == At(ring, i + 1) && At(r', j) == At(ring, j + 1);
      }
    }
  }

  /** Putting a buffer that is not in the ring right after the head. */
  lemma InsertFront(nx: seq<nat>, pv: seq<nat>, ring: seq<nat>, b: nat)
    requires Linked(nx, pv, ring) && b < NBUF && b !in ring
    ensures nx[HEAD] <= HEAD
    ensures Linked(nx[b := nx[HEAD]][HEAD := b], pv[b := HEAD][nx[HEAD] := b], [b] + ring)
  {
    assert At(ring, 0) == HEAD;
    var first := At(ring, 1);
    assert nx[HEAD] == first;
    var nx', pv', r' := nx[b := first][HEAD := b], pv[b := HEAD][first := b], [b] + ring;
    forall i, j | 0 <= i <= |r'| && j == i + 1
      ensures nx'[At(r', i)] == At(r', j) && pv'[At(r', j)] == At(r', i)
    {
      if i == 0 {
      } else if i == 1 {
        assert At(r', j) == At(ring, 1);
      } else {
        assert At(r', i) == At(ring, i - 1) && At(r', j) == At(ring, i);
        assert At(ring, i - 1) in ring;
      }
    }
  }
}
