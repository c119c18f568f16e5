/** Naturally aligned blocks: their halves, buddies and parents, and how they nest. */
module Alignment {
  import opened Bits
  import opened Blocks

  // ----- Multiples -----

  lemma AlignedFactor(a: nat, s: nat) returns (q: nat)
    requires s > 0 && a % s == 0
    ensures q == a / s && a == q * s
  {
    q := a / s;
  }

  lemma FactorAligned(a: nat, s: nat, q: nat)
    requires s > 0 && a == q * s
    ensures a % s == 0 && a / s == q
  {
    QuotientUnique(a, s, q, 0);
  }

  lemma AlignedDown(a: nat, j: nat, k: nat)
    requires j <= k && a % Size(k) == 0
    ensures a % Size(j) == 0
  {
    var q := AlignedFactor(a, Size(k));
    SizeMultiple(j, k);
    var m, s := Pow2(k - j), Size(j);
    assert q * (m * s) == (q * m) * s;
    FactorAligned(a, s, q * m);
  }

  lemma SizeAligned(j: nat, k: nat)
    requires j <= k
    ensures Size(k) % Size(j) == 0
  {
    SizeMultiple(j, k);
    FactorAligned(Size(k), Size(j), Pow2(k - j));
  }

  lemma AlignedSum(a: nat, b: nat, s: nat)
    requires s > 0 && a % s == 0 && b % s == 0
    ensures (a + b) % s == 0
    ensures b <= a ==> (a - b) % s == 0
  {
    var x := AlignedFactor(a, s);
    var y := AlignedFactor(b, s);
    assert (x + y) * s == a + b;
    FactorAligned(a + b, s, x + y);
    if b <= a {
      assert (x - y) * s == a - b;
      AlignedDifference(a - b, s, x - y);
    }
  }

  lemma AlignedDifference(d: nat, s: nat, z: int)
    requires s > 0 && d == z * s
    ensures d % s == 0
  {
    assert z < 0 ==> z * s <= -1 * s;
    FactorAligned(d, s, z);
  }

  lemma AlignedNext(a: nat, s: nat)
    requires s > 0 && a % s == 0
    ensures (a + s) % s == 0
  {
    var q := AlignedFactor(a, s);
    assert a + s == (q + 1) * s;
    FactorAligned(a + s, s, q + 1);
  }

  lemma AlignedPrevious(a: nat, s: nat)
    requires s > 0 && a % s == 0 && s <= a
    ensures (a - s) % s == 0 && (a - s) / s == a / s - 1
  {
    var q := AlignedFactor(a, s);
    assert a - s == (q - 1) * s;
    assert q >= 1;
    FactorAligned(a - s, s, q - 1);
  }

  /** An aligned address is aligned to twice the size just when the size's bit is clear. */
  lemma AlignedTwice(a: nat, s: nat)
    requires s > 0
    ensures a % (2 * s) == 0 <==> a % s == 0 && a / s % 2 == 0
  {
    if a % (2 * s) == 0 {
      TwiceDown(a, s);
    }
    if a % s == 0 && a / s % 2 == 0 {
      TwiceUp(a, s);
    }
  }

  lemma TwiceDown(a: nat, s: nat)
    requires s > 0 && a % (2 * s) == 0
    ensures a % s == 0 && a / s % 2 == 0
  {
    var h := AlignedFactor(a, 2 * s);
    assert h * (2 * s) == (2 * h) * s;
    FactorAligned(a, s, 2 * h);
  }

  lemma TwiceUp(a: nat, s: nat)
    requires s > 0 && a % s == 0 && a / s % 2 == 0
    ensures a % (2 * s) == 0
  {
    var q := AlignedFactor(a, s);
    var h := q / 2;
    assert h * (2 * s) == (2 * h) * s;
    FactorAligned(a, 2 * s, h);
  }

  lemma BuddyFlips(b: Block)
    ensures b.Buddy().addr == if b.addr / Size(b.order) % 2 == 0 then b.addr + Size(b.order) else b.addr - Size(b.order)
  {
    SizeIsPowerOfTwo(b.order);
    XorFlip(b.addr, 12 + b.order);
    BitIsQuotient(b.addr, 12 + b.order);
  }

  lemma HalvesDyadic(b: Block)
    requires b.Dyadic() && b.order > 0
    ensures b.Lower().Dyadic() && b.Upper().Dyadic()
    ensures b.Lower().Buddy() == b.Upper() && b.Upper().Buddy() == b.Lower()
    ensures b.Lower().Parent() == b
  {
    var s := Size(b.order - 1);
    assert Size(b.order) == 2 * s;
    AlignedTwice(b.addr, s);
    AlignedNext(b.addr, s);
    BuddyFlips(b.Lower());
    BuddyIsAdjacent(b.Lower());
  }

  /** With the size's bit clear the buddy is above, and the block starts its parent. */
  lemma LowerOfParent(b: Block)
    requires b.Dyadic() && b.addr / Size(b.order) % 2 == 0
    ensures b.Buddy().addr == b.addr + Size(b.order) && b.Buddy().Dyadic()
    ensures b.Parent() == Block(b.addr, b.order + 1) && b.Parent().Dyadic()
  {
    BuddyFlips(b);
    hide Xor;
    var a, s := b.addr, Size(b.order);
    assert Size(b.order + 1) == 2 * s;
    TwiceUp(a, s);
    AlignedNext(a, s);
  }

  /** With the bit set the buddy is below and starts the parent. */
  lemma UpperOfParent(b: Block)
    requires b.Dyadic() && b.addr / Size(b.order) % 2 == 1
    ensures Size(b.order) <= b.addr && b.Buddy().addr == b.addr - Size(b.order) && b.Buddy().Dyadic()
    ensures b.Parent() == Block(b.addr - Size(b.order), b.order + 1) && b.Parent().Dyadic()
  {
    BuddyFlips(b);
    hide Xor;
    var a, s := b.addr, Size(b.order);
    assert Size(b.order + 1) == 2 * s;
    OddQuotient(a, s);
    AlignedPrevious(a, s);
    TwiceUp(a - s, s);
  }

  lemma OddQuotient(a: nat, s: nat)
    requires s > 0 && a / s % 2 == 1
    ensures s <= a
  {
    if a < s {
      QuotientUnique(a, s, 0, a);
      assert false;
    }
  }

  lemma ParentDyadic(b: Block)
    requires b.Dyadic()
    ensures b.Buddy().Dyadic() && b.Parent().Dyadic()
    ensures b.Parent().addr <= b.addr && b.End() <= b.Parent().End()
  {
    if b.addr / Size(b.order) % 2 == 0 {
      LowerOfParent(b);
    } else {
      UpperOfParent(b);
    }
    hide Xor;
    assert Size(b.order + 1) == 2 * Size(b.order);
  }

  lemma MultiplesOrdered(x: int, y: int, s: nat)
    requires x * s < y * s
    ensures x < y
  {
    if x >= y {
      MulMonotone(s, y, x);
      assert false;
    }
  }

  lemma AlignedNest(a: nat, s: nat, c: nat, m: nat)
    requires s > 0 && a % s == 0 && c % s == 0 && a < c + m * s && c < a + s
    ensures c <= a && a + s <= c + m * s
  {
    var x := AlignedFactor(a, s);
    var u := AlignedFactor(c, s);
    assert c + m * s == (u + m) * s && a + s == (x + 1) * s;
    MultiplesOrdered(u, x + 1, s);
    MultiplesOrdered(x, u + m, s);
    MulMonotone(s, u, x);
    MulMonotone(s, x + 1, u + m);
  }

  /** Dyadic blocks nest: one that shares a byte with a block at least as large lies inside it. */
  lemma DyadicNest(b: Block, c: Block)
    requires b.Dyadic() && c.Dyadic() && b.order <= c.order && !b.Apart(c)
    ensures c.addr <= b.addr && b.End() <= c.End()
  {
    AlignedDown(c.addr, b.order, c.order);
    SizeMultiple(b.order, c.order);
    AlignedNest(b.addr, Size(b.order), c.addr, Pow2(c.order - b.order));
  }
}
