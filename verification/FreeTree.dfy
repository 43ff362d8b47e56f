/** Subtrees of a page table, for freeing them bottom up: which places lie under a place, and what
    ownership is left once a subtree, or some children of a page, have been freed.

    A subtree can be freed without a panic when no page is mapped below it; then every table page in it
    becomes free, once. */
module FreeTree {
  import opened PageTable

  /** The place at `level` above `q`. */
  function Anc(q: Place, level: nat): Place
    decreases level - q.level
  {
    if q.level >= level then q else Anc(Parent(q), level)
  }

  predicate Under(q: Place, p: Place) {
    q.level <= p.level && Anc(q, p.level) == p
  }

  lemma {:induction false} AncParent(q: Place, level: nat)
    requires q.level <= level
    ensures Anc(q, level).level == level && Anc(q, level + 1) == Parent(Anc(q, level))
    decreases level - q.level
  {
    if q.level < level {
      AncParent(Parent(q), level);
    } else {
      assert Anc(q, level + 1) == Anc(Parent(q), level + 1) == Parent(q);
    }
  }

  /** The place entry `i` of the page at `p` leads to. */
  function ChildOf(p: Place, i: nat): (c: Place)
    requires p.level > 0 && i < 512
    ensures Parent(c) == p && Lo(c.key) == i && c.level + 1 == p.level
  {
    Place(p.level - 1, p.key * 512 + i)
  }

  lemma ChildIs(p: Place, c: Place)
    requires p.level > 0 && Parent(c) == p
    ensures ChildOf(p, Lo(c.key)) == c
  {
    HiLo(ChildOf(p, Lo(c.key)).key, c.key);
  }

  /** A table page in the subtree at `p`. */
  predicate InTree(o: Owner, id: nat, p: Place) {
    o.Table? && o.id == id && Under(o.place, p)
  }

  /** A table page below one of the first `i` entries of the page at `p`. */
  predicate InKids(o: Owner, id: nat, p: Place, i: nat) {
    && o.Table? && o.id == id && o.place.level < p.level && Parent(Anc(o.place, p.level - 1)) == p
    && Lo(Anc(o.place, p.level - 1).key) < i
  }

  function WithoutTree(owner: map<nat, Owner>, id: nat, p: Place): map<nat, Owner> {
    map f | f in owner :: if InTree(owner[f], id, p) then Free else owner[f]
  }

  function WithoutKids(owner: map<nat, Owner>, id: nat, p: Place, i: nat): map<nat, Owner> {
    map f | f in owner :: if InKids(owner[f], id, p, i) then Free else owner[f]
  }

  predicate SubNode(owner: map<nat, Owner>, id: nat, s: Space, p: Place, q: Place)
    requires q in s.node
  {
    Under(q, p) ==>
      && 1 <= q.level && s.node[q] in owner && owner[s.node[q]] == Table(id, q)
      && (q.level < p.level ==> Parent(q) in s.node)
  }

  predicate SubStray(owner: map<nat, Owner>, id: nat, s: Space, p: Place, f: nat)
    requires f in owner
  {
    InTree(owner[f], id, p) ==> owner[f].place in s.node && s.node[owner[f].place] == f
  }

  predicate SubFlat(s: Space, p: Place, n: nat)
    requires n in s.flat
  {
    Under(Place(0, n), p) ==> Parent(Place(0, n)) in s.node && IsValid(s.flat[n]) && IsLeaf(s.flat[n])
  }

  predicate SubWord(ram: seq<Page>, s: Space, p: Place, c: Place) {
    Parent(c) in s.node && Under(Parent(c), p) ==> Word(ram, s.node[Parent(c)], Lo(c.key)) == Expect(s, c)
  }

  /** The subtree at `p` is intact. */
  ghost predicate SubOk(ram: seq<Page>, owner: map<nat, Owner>, id: nat, s: Space, p: Place) {
    && InRam(ram, owner) && p in s.node && p.level >= 1
    && (forall q | q in s.node :: SubNode(owner, id, s, p, q))
    && (forall f: nat | f in owner :: SubStray(owner, id, s, p, f))
    && (forall n: nat | n in s.flat :: SubFlat(s, p, n))
    && forall c: Place :: SubWord(ram, s, p, c)
  }

  /** No page is mapped below `p`. */
  predicate Bare(s: Space, p: Place) {
    forall n | n in s.flat :: !Under(Place(0, n), p)
  }

  lemma {:induction false} UnderRoot(owner: map<nat, Owner>, id: nat, s: Space, q: Place)
    requires Owned(owner, id, s) && q in s.node
    ensures Under(q, ROOT)
    decreases 3 - q.level
  {
    assert NodeOk(owner, id, s, q);
    if q.level < 3 {
      UnderRoot(owner, id, s, Parent(q));
    }
  }

  lemma WholeTree(ram: seq<Page>, owner: map<nat, Owner>, id: nat, s: Space)
    requires SpaceOk(ram, owner, id, s)
    ensures SubOk(ram, owner, id, s, ROOT)
    ensures forall f: nat | f in owner && owner[f].Table? && owner[f].id == id :: InTree(owner[f], id, ROOT)
  {
    hide Word, Expect, Anc;
    forall q | q in s.node
      ensures SubNode(owner, id, s, ROOT, q)
    {
      assert NodeOk(owner, id, s, q);
    }
    forall f: nat | f in owner
      ensures SubStray(owner, id, s, ROOT, f)
    {
      assert NoStray(owner, id, s, f);
    }
    forall n: nat | n in s.flat
      ensures SubFlat(s, ROOT, n)
    {
      assert FlatOk(s, n);
    }
    forall c: Place
      ensures SubWord(ram, s, ROOT, c)
    {
      assert WordOk(ram, s, c);
    }
    forall f: nat | f in owner && owner[f].Table? && owner[f].id == id
      ensures InTree(owner[f], id, ROOT)
    {
      assert NoStray(owner, id, s, f);
      UnderRoot(owner, id, s, owner[f].place);
    }
  }

  /** Being under the child reached by entry `i` is being under one of the first `i + 1` but not
      under one of the first `i`. */
  lemma KidsStep(o: Owner, id: nat, p: Place, i: nat)
    requires 1 <= p.level && i < 512
    ensures InKids(o, id, p, i + 1) <==> InKids(o, id, p, i) || InTree(o, id, ChildOf(p, i))
    ensures InTree(o, id, ChildOf(p, i)) ==> !InKids(o, id, p, i)
    ensures o.Table? && o.place == p ==> !InKids(o, id, p, i) && !InTree(o, id, ChildOf(p, i))
  {
    if o.Table? && o.place.level < p.level {
      AncParent(o.place, p.level - 1);
      var c := Anc(o.place, p.level - 1);
      if Parent(c) == p {
        ChildIs(p, c);
      }
    }
  }

  lemma WithoutKidsStep(owner: map<nat, Owner>, id: nat, p: Place, i: nat)
    requires 1 <= p.level && i < 512
    ensures WithoutKids(owner, id, p, i + 1) == WithoutTree(WithoutKids(owner, id, p, i), id, ChildOf(p, i))
  {
    hide InKids, InTree, ChildOf;
    forall f | f in owner
      ensures (if InKids(owner[f], id, p, i + 1) then Free else owner[f]) ==
                  WithoutTree(WithoutKids(owner, id, p, i), id, ChildOf(p, i))[f]
    {
      KidsStep(owner[f], id, p, i);
      NotFreeInTree(id, ChildOf(p, i));
    }
  }

  lemma NotFreeInTree(id: nat, p: Place)
    ensures !InTree(Free, id, p)
  {
  }

  lemma WithoutNoKids(owner: map<nat, Owner>, id: nat, p: Place)
    ensures WithoutKids(owner, id, p, 0) == owner
  {
  }

  /** All children and the page itself make up the subtree. */
  lemma WithoutAll(owner: map<nat, Owner>, id: nat, p: Place, f: nat)
    requires 1 <= p.level && f in owner && owner[f] == Table(id, p)
    requires forall g: nat | g in owner && owner[g] == Table(id, p) :: g == f
    ensures WithoutTree(owner, id, p) == WithoutKids(owner, id, p, 512)[f := Free]
  {
    forall g | g in owner
      ensures InTree(owner[g], id, p) <==> InKids(owner[g], id, p, 512) || g == f
    {
      if owner[g].Table? && owner[g].place.level < p.level {
        AncParent(owner[g].place, p.level - 1);
      }
    }
  }

  lemma UnderChild(q: Place, p: Place, c: Place)
    requires Parent(c) == p && Under(q, c)
    ensures Under(q, p) && q != p
  {
    AncParent(q, c.level);
  }

  /** The subtree below an entry not reached yet is intact, though others have been freed. */
  lemma KidOk(r0: seq<Page>, o0: map<nat, Owner>, ram: seq<Page>, owner: map<nat, Owner>, id: nat, s: Space, p: Place,
              i: nat)
    requires SubOk(r0, o0, id, s, p) && i < 512 && ChildOf(p, i) in s.node
    requires owner == WithoutKids(o0, id, p, i) && |ram| == |r0|
    requires forall f: nat | f in o0 && !InKids(o0[f], id, p, i) && f != s.node[p] :: ram[f] == r0[f]
    ensures SubOk(ram, owner, id, s, ChildOf(p, i))
  {
    hide Anc, Word, Expect, InKids, IsValid, IsLeaf;
    var c := ChildOf(p, i);
    assert Under(p, p) by { UnderSelf(p); }
    assert SubNode(o0, id, s, p, p);
    assert Under(c, c) by { UnderSelf(c); }
    UnderChild(c, p, c);
    assert SubNode(o0, id, s, p, c);
    forall q | q in s.node
      ensures SubNode(owner, id, s, c, q) && (Under(q, c) ==> 0 < s.node[q] < |r0| && ram[s.node[q]] == r0[s.node[q]])
    {
      if Under(q, c) {
        UnderChild(q, p, c);
        assert SubNode(o0, id, s, p, q);
        KidsStep(o0[s.node[q]], id, p, i);
      }
    }
    forall f: nat | f in owner
      ensures SubStray(owner, id, s, c, f)
    {
      if InTree(owner[f], id, c) {
        UnderChild(owner[f].place, p, c);
        assert SubStray(o0, id, s, p, f);
      }
    }
    forall n: nat | n in s.flat
      ensures SubFlat(s, c, n)
    {
      if Under(Place(0, n), c) {
        UnderChild(Place(0, n), p, c);
        assert SubFlat(s, p, n);
      }
    }
    forall d: Place
      ensures SubWord(ram, s, c, d)
    {
      if Parent(d) in s.node && Under(Parent(d), c) {
        UnderChild(Parent(d), p, c);
        assert SubWord(r0, s, p, d) && SubNode(owner, id, s, c, Parent(d));
        SameWord(r0, ram, s.node[Parent(d)], Lo(d.key));
      }
    }
  }

  lemma UnderSelf(p: Place)
    ensures Under(p, p)
  {
  }

  lemma SameWord(r0: seq<Page>, ram: seq<Page>, t: nat, i: nat)
    requires t < |r0| == |ram| && ram[t] == r0[t]
    ensures Word(ram, t, i) == Word(r0, t, i)
  {
  }

  /** Every place on the way from a page of the subtree up to `p` is in the tree. */
  lemma {:induction false} WayUp(ram: seq<Page>, owner: map<nat, Owner>, id: nat, s: Space, p: Place, q: Place,
                                 level: nat)
    requires SubOk(ram, owner, id, s, p) && q in s.node && Under(q, p) && q.level <= level <= p.level
    ensures Anc(q, level) in s.node
    decreases level - q.level
  {
    if q.level < level {
      assert SubNode(owner, id, s, p, q);
      WayUp(ram, owner, id, s, p, Parent(q), level);
    }
  }

  /** Nothing is below a missing entry. */
  lemma NoKid(ram: seq<Page>, owner: map<nat, Owner>, id: nat, s: Space, p: Place, i: nat)
    requires SubOk(ram, owner, id, s, p) && i < 512 && ChildOf(p, i) !in s.node
    ensures WithoutKids(owner, id, p, i + 1) == WithoutKids(owner, id, p, i)
  {
    hide InKids, Word, Expect, Anc;
    var c := ChildOf(p, i);
    forall f: nat | f in owner
      ensures !InTree(owner[f], id, c)
    {
      if InTree(owner[f], id, c) {
        var q := owner[f].place;
        UnderChild(q, p, c);
        assert SubStray(owner, id, s, p, f);
        WayUp(ram, owner, id, s, p, q, c.level);
        assert false;
      }
    }
    forall f | f in owner
      ensures InKids(owner[f], id, p, i + 1) <==> InKids(owner[f], id, p, i)
    {
      KidsStep(owner[f], id, p, i);
    }
  }

  predicate KidFlat(n: nat, p: Place, i: nat)
    requires p.level >= 1
  {
    var c := Anc(Place(0, n), p.level - 1);
    Parent(c) == p && Lo(c.key) < i
  }

  /** No page is mapped below the first `i` entries of the page at `p`. */
  predicate BareKids(s: Space, p: Place, i: nat)
    requires p.level >= 1
  {
    forall n | n in s.flat :: !KidFlat(n, p, i)
  }

  lemma KidFlatStep(n: nat, p: Place, i: nat)
    requires p.level >= 1 && i < 512
    ensures KidFlat(n, p, i + 1) <==> KidFlat(n, p, i) || Under(Place(0, n), ChildOf(p, i))
    ensures KidFlat(n, p, 512) <==> Under(Place(0, n), p)
  {
    AncParent(Place(0, n), p.level - 1);
    var c := Anc(Place(0, n), p.level - 1);
    if Parent(c) == p {
      ChildIs(p, c);
    }
  }

  lemma BareStep(s: Space, p: Place, i: nat)
    requires p.level >= 1 && i < 512
    ensures BareKids(s, p, i + 1) <==> BareKids(s, p, i) && Bare(s, ChildOf(p, i))
    ensures BareKids(s, p, 512) <==> Bare(s, p)
    ensures Bare(s, p) ==> Bare(s, ChildOf(p, i))
  {
    hide KidFlat, Under, ChildOf;
    forall n | n in s.flat
      ensures KidFlat(n, p, i + 1) <==> KidFlat(n, p, i) || Under(Place(0, n), ChildOf(p, i))
      ensures KidFlat(n, p, 512) <==> Under(Place(0, n), p)
      ensures Under(Place(0, n), ChildOf(p, i)) ==> Under(Place(0, n), p)
    {
      KidFlatStep(n, p, i);
      if Under(Place(0, n), ChildOf(p, i)) {
        UnderChild(Place(0, n), p, ChildOf(p, i));
      }
    }
  }

  /** What the word for a child of `p` says. */
  lemma KidWord(ram: seq<Page>, owner: map<nat, Owner>, id: nat, s: Space, p: Place, i: nat)
    requires SubOk(ram, owner, id, s, p) && i < 512
    ensures 0 < s.node[p] < |ram|
    ensures var c, e := ChildOf(p, i), ram[s.node[p]].w[i];
            && (c in s.node ==> c.level >= 1)
            && (IsValid(e) && !IsLeaf(e) <==> c in s.node) && (c in s.node ==> FrameOf(e) == s.node[c])
            && (IsValid(e) && IsLeaf(e) ==> !Bare(s, c))
            && (!IsValid(e) ==> Bare(s, c))
  {
    var c := ChildOf(p, i);
    UnderSelf(p);
    UnderSelf(c);
    UnderChild(c, p, c);
    assert SubNode(owner, id, s, p, p) && SubWord(ram, s, p, c);
    assert c in s.node ==> SubNode(owner, id, s, p, c);
    if c.level == 0 {
      assert c.key in s.flat ==> SubFlat(s, p, c.key) && Under(Place(0, c.key), c);
      assert forall n | n in s.flat :: Under(Place(0, n), c) <==> n == c.key;
    } else if c !in s.node {
      forall n | n in s.flat
        ensures !Under(Place(0, n), c)
      {
        if Under(Place(0, n), c) {
          UnderChild(Place(0, n), p, c);
          AncParent(Place(0, n), 0);
          assert SubFlat(s, p, n);
          WayUp(ram, owner, id, s, p, Parent(Place(0, n)), c.level);
          assert false;
        }
      }
    }
  }
}
