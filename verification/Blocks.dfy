/** Buddy blocks as values: their sizes, their buddies, and sets of blocks that tile a range. */
module Blocks {
  import opened Bits

  const PAGE_SIZE: nat := 4096
  const MAX_ORDER: nat := 11

  /** Bytes in a block of order k. */
  function Size(k: nat): (s: nat)
    ensures s >= PAGE_SIZE
  {
    PAGE_SIZE * Pow2(k)
  }

  datatype Block = Block(addr: nat, order: nat) {
    function End(): nat {
      addr + Size(order)
    }

    predicate Has(x: nat) {
      addr <= x < End()
    }

    predicate Apart(c: Block) {
      End() <= c.addr || c.End() <= addr
    }

    /** The block at the address with one bit flipped. */
    function Buddy(): Block {
      Block(Xor(addr, Size(order)), order)
    }

    /** The block that a merge with the buddy produces. */
    function Parent(): Block {
      var b := Buddy();
      Block(if b.addr < addr then b.addr else addr, order + 1)
    }

    function Lower(): Block
      requires order > 0
    {
      Block(addr, order - 1)
    }

    function Upper(): Block
      requires order > 0
    {
      Block(addr + Size(order - 1), order - 1)
    }

    /** Naturally aligned: the address is a multiple of the size. */
    predicate Dyadic() {
      addr % Size(order) == 0
    }
  }

  lemma SizeIsPowerOfTwo(k: nat)
    ensures Size(k) == Pow2(12 + k)
  {
    assert Pow2(12) == 4096 by {
      assert Pow2(4) == 16;
      assert Pow2(8) == 256;
    }
    Pow2Add(12, k);
  }

  lemma SizeMonotone(j: nat, k: nat)
    requires j <= k
    ensures Size(j) <= Size(k)
    ensures j < k ==> 2 * Size(j) <= Size(k)
  {
    Pow2Increases(j, k);
  }

  /** Size(k) is a whole number of blocks of any lower order. */
  lemma SizeMultiple(j: nat, k: nat)
    requires j <= k
    ensures Size(k) == Pow2(k - j) * Size(j)
  {
    Pow2Add(k - j, j);
    calc {
      Size(k);
      PAGE_SIZE * (Pow2(k - j) * Pow2(j));
      Pow2(k - j) * (PAGE_SIZE * Pow2(j));
    }
  }

  /** Whatever the alignment, the buddy is the block just above or just below. */
  lemma BuddyIsAdjacent(b: Block)
    ensures b.Buddy().addr == b.End() || b.addr == b.Buddy().End()
    ensures b.Buddy() != b && b.Buddy().Buddy() == b && b.Buddy().Parent() == b.Parent()
  {
    SizeIsPowerOfTwo(b.order);
    XorFlip(b.addr, 12 + b.order);
    XorInverse(b.addr, Size(b.order));
  }

  // ----- Tilings -----

  ghost predicate Covered(blocks: set<Block>, x: nat) {
    exists b :: b in blocks && b.Has(x)
  }

  ghost predicate Inside(b: Block, lo: nat, hi: nat) {
    b.order <= MAX_ORDER && lo <= b.addr && b.End() <= hi && b.addr % PAGE_SIZE == 0
  }

  /** The blocks are pairwise disjoint and together cover exactly the bytes of [lo, hi). */
  ghost predicate Tiles(blocks: set<Block>, lo: nat, hi: nat) {
    && (forall b :: b in blocks ==> Inside(b, lo, hi))
    && (forall b, c :: b in blocks && c in blocks && b != c ==> b.Apart(c))
    && (forall x :: lo <= x < hi ==> Covered(blocks, x))
  }

  lemma PageMultiple(a: nat, k: nat)
    requires a % PAGE_SIZE == 0
    ensures (a + Size(k)) % PAGE_SIZE == 0
  {
  }

  /** Replacing some blocks by others that hold all their bytes leaves no byte uncovered. */
  lemma CoverKept(blocks: set<Block>, gone: set<Block>, fill: set<Block>, lo: nat, hi: nat)
    requires forall x :: lo <= x < hi ==> Covered(blocks, x)
    requires forall c, x :: c in gone && c.Has(x) ==> Covered(fill, x)
    ensures forall x :: lo <= x < hi ==> Covered(blocks - gone + fill, x)
  {
    forall x | lo <= x < hi
      ensures Covered(blocks - gone + fill, x)
    {
      assert Covered(blocks, x);
      var c :| c in blocks && c.Has(x);
      if c in gone {
        assert Covered(fill, x);
        var d :| d in fill && d.Has(x);
        assert d in blocks - gone + fill;
      } else {
        assert c in blocks - gone + fill;
      }
    }
  }

  lemma TilesSplit(blocks: set<Block>, b: Block, lo: nat, hi: nat)
    requires Tiles(blocks, lo, hi) && b in blocks && b.order > 0
    ensures b.Lower() !in blocks && b.Upper() !in blocks
    ensures Tiles(blocks - {b} + {b.Lower(), b.Upper()}, lo, hi)
  {
    var l, u := b.Lower(), b.Upper();
    assert Inside(b, lo, hi);
    assert Size(b.order) == 2 * Size(b.order - 1);
    var after := blocks - {b} + {l, u};
    PageMultiple(b.addr, b.order - 1);
    assert Inside(l, lo, hi) && Inside(u, lo, hi);
    forall c | c in blocks && c != b
      ensures c.Apart(l) && l.Apart(c) && c.Apart(u) && u.Apart(c) && c != l && c != u
    {
      assert b.Apart(c);
    }
    CoverKept(blocks, {b}, {l, u}, lo, hi);
  }

  lemma TilesMerge(blocks: set<Block>, b: Block, lo: nat, hi: nat)
    requires Tiles(blocks, lo, hi) && b in blocks && b.Buddy() in blocks && b.order < MAX_ORDER
    ensures b.Parent() !in blocks
    ensures Tiles(blocks - {b, b.Buddy()} + {b.Parent()}, lo, hi)
  {
    BuddyIsAdjacent(b);
    var u, m := b.Buddy(), b.Parent();
    var after := blocks - {b, u} + {m};
    assert Inside(b, lo, hi) && Inside(u, lo, hi);
    assert Size(m.order) == 2 * Size(b.order);
    assert Inside(m, lo, hi);
    forall c | c in blocks && c != b && c != u
      ensures c.Apart(m) && m.Apart(c) && c != m
    {
      assert b.Apart(c) && u.Apart(c);
    }
    assert m in blocks ==> m.Apart(b);
    assert forall x :: b.Has(x) || u.Has(x) ==> m.Has(x);
    CoverKept(blocks, {b, u}, {m}, lo, hi);
  }

  lemma TilesExtend(blocks: set<Block>, b: Block, lo: nat, hi: nat)
    requires Tiles(blocks, lo, hi) && lo <= hi && b.addr == hi
    requires b.order <= MAX_ORDER && hi % PAGE_SIZE == 0
    ensures b !in blocks && Tiles(blocks + {b}, lo, b.End())
  {
    assert b in blocks ==> Inside(b, lo, hi);
    forall c | c in blocks
      ensures Inside(c, lo, b.End()) && c.Apart(b) && b.Apart(c)
    {
      assert Inside(c, lo, hi);
    }
    forall x | lo <= x < b.End()
      ensures Covered(blocks + {b}, x)
    {
      if x < hi {
        assert Covered(blocks, x);
        var c :| c in blocks && c.Has(x);
        assert c in blocks + {b};
      } else {
        assert b.Has(x);
      }
    }
  }

  /** Two blocks of one tiling that share a byte are one block. */
  lemma SameBlock(blocks: set<Block>, b: Block, c: Block, x: nat, lo: nat, hi: nat)
    requires Tiles(blocks, lo, hi) && b in blocks && c in blocks && b.Has(x) && c.Has(x)
    ensures b == c
  {
    assert b != c ==> b.Apart(c);
  }
}
