/** Naturally aligned pools: the free set depends only on what is live. */
module BuddyCanonical {
  import opened Blocks
  import opened BuddyModel
  import opened BuddyInvariant
  import opened Alignment
  import opened BuddyGrid

  // ----- The free set is canonical -----

  /** The whole range of b belongs to the pool and nothing live touches it. */
  ghost predicate Unused(b: Block, lo: nat, hi: nat, live: map<nat, nat>) {
    lo <= b.addr && b.End() <= hi && forall c :: c in LiveBlocks(live) ==> c.Apart(b)
  }

  /** A naturally aligned unused range that is not part of a larger one the allocator could hold. */
  ghost predicate MaximalUnused(b: Block, lo: nat, hi: nat, live: map<nat, nat>) {
    b.order <= MAX_ORDER && b.Dyadic() && Unused(b, lo, hi, live)
    && (b.order < MAX_ORDER ==> !Unused(b.Parent(), lo, hi, live))
  }

  lemma UnusedByteIsFree(p: Pool, b: Block, x: nat) returns (c: Block)
    requires Invariant(p) && Unused(b, p.start, p.End(), p.live) && b.Has(x)
    ensures c in FreeBlocks(p.lists) && c.Has(x)
  {
    var all := FreeBlocks(p.lists) + LiveBlocks(p.live);
    assert Covered(all, x);
    c :| c in all && c.Has(x);
  }

  lemma FreeBlockUnused(p: Pool, b: Block)
    requires Invariant(p) && b in FreeBlocks(p.lists)
    ensures Unused(b, p.start, p.End(), p.live)
  {
    assert Inside(b, p.start, p.End());
  }

  lemma HalvesUnused(b: Block, lo: nat, hi: nat, live: map<nat, nat>)
    requires b.order > 0 && Unused(b, lo, hi, live)
    ensures Unused(b.Lower(), lo, hi, live) && Unused(b.Upper(), lo, hi, live)
  {
    assert Size(b.order) == 2 * Size(b.order - 1);
  }

  /** A dyadic block that contains one half of b is that half, or contains all of b. */
  lemma HalfInside(b: Block, h: Block, c: Block)
    requires b.order > 0 && b.Dyadic() && c.Dyadic() && (h == b.Lower() || h == b.Upper())
    requires h.order <= c.order && c.addr <= h.addr && h.End() <= c.End()
    ensures c == h || (b.order <= c.order && c.addr <= b.addr && b.End() <= c.End())
  {
    assert Size(b.order) == 2 * Size(b.order - 1);
    if c.order >= b.order {
      DyadicNest(b, c);
    }
  }

  /** An unused naturally aligned range of order k lies inside one free block of order k or more. */
  lemma {:induction false} UnusedInsideFree(p: Pool, b: Block) returns (c: Block)
    requires Invariant(p) && AllDyadic(FreeBlocks(p.lists))
    requires b.order <= MAX_ORDER && b.Dyadic() && Unused(b, p.start, p.End(), p.live)
    ensures c in FreeBlocks(p.lists) && b.order <= c.order && c.addr <= b.addr && b.End() <= c.End()
    decreases b.order
  {
    if b.order == 0 {
      c := UnusedByteIsFree(p, b, b.addr);
      DyadicNest(b, c);
    } else {
      HalvesDyadic(b);
      HalvesUnused(b, p.start, p.End(), p.live);
      c := UnusedInsideFree(p, b.Lower());
      var d := UnusedInsideFree(p, b.Upper());
      HalfInside(b, b.Lower(), c);
      HalfInside(b, b.Upper(), d);
      if c == b.Lower() {
        assert d != b.Upper();
        c := d;
      }
    }
  }

  /** Exactly the maximal unused aligned ranges are free. */
  lemma FreeSetIsCanonical(p: Pool, b: Block)
    requires Invariant(p) && DyadicPool(p)
    ensures b in FreeBlocks(p.lists) <==> MaximalUnused(b, p.start, p.End(), p.live)
  {
    var all := FreeBlocks(p.lists) + LiveBlocks(p.live);
    if b in FreeBlocks(p.lists) {
      FreeBlockUnused(p, b);
      assert Inside(b, p.start, p.End());
      if b.order < MAX_ORDER && Unused(b.Parent(), p.start, p.End(), p.live) {
        ParentDyadic(b);
        var c := UnusedInsideFree(p, b.Parent());
        SameBlock(all, b, c, b.addr, p.start, p.End());
        assert false;
      }
    }
    if MaximalUnused(b, p.start, p.End(), p.live) {
      var c := UnusedInsideFree(p, b);
      assert Inside(c, p.start, p.End());
      FreeBlockUnused(p, c);
      if c.order > b.order {
        ParentDyadic(b);
        BuddyIsAdjacent(b);
        DyadicNest(b.Parent(), c);
        assert false;
      }
      assert c == b;
    }
  }

  lemma SameElementsSameMultiset<T>(s: seq<T>, t: seq<T>)
    requires NoDuplicates(s) && NoDuplicates(t) && forall x :: x in s <==> x in t
    ensures multiset(s) == multiset(t)
  {
    forall x
      ensures multiset(s)[x] == multiset(t)[x]
    {
      CountNoDuplicates(s, x);
      CountNoDuplicates(t, x);
    }
  }

  lemma {:induction false} CountNoDuplicates<T>(s: seq<T>, x: T)
    requires NoDuplicates(s)
    ensures multiset(s)[x] == if x in s then 1 else 0
  {
    if s != [] {
      var n := |s| - 1;
      assert s == s[..n] + [s[n]];
      CountNoDuplicates(s[..n], x);
    }
  }

  lemma CanonicalLists(p: Pool, q: Pool)
    requires Invariant(p) && DyadicPool(p) && Invariant(q) && DyadicPool(q)
    requires p.start == q.start && p.size == q.size && p.live == q.live
    ensures forall k :: 0 <= k <= MAX_ORDER ==> multiset(p.lists[k]) == multiset(q.lists[k])
    ensures FreeBlocks(p.lists) == FreeBlocks(q.lists)
  {
    forall b: Block
      ensures b in FreeBlocks(p.lists) <==> b in FreeBlocks(q.lists)
    {
      FreeSetIsCanonical(p, b);
      FreeSetIsCanonical(q, b);
    }
    forall k | 0 <= k <= MAX_ORDER
      ensures multiset(p.lists[k]) == multiset(q.lists[k])
    {
      forall x: nat
        ensures x in p.lists[k] <==> x in q.lists[k]
      {
        assert Block(x, k) in FreeBlocks(p.lists) <==> Block(x, k) in FreeBlocks(q.lists);
      }
      SameElementsSameMultiset(p.lists[k], q.lists[k]);
    }
  }
}
