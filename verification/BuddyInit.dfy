/** Greedy carving at initialisation is the binary decomposition of the page count. */
module BuddyInit {
  import opened Bits
  import opened Blocks
  import opened BuddyModel
  import opened BuddyInvariant

  lemma CarveStepSound(lists: FreeLists, start: nat, b: Block)
    requires start <= b.addr && Sound(lists, {}, start, b.addr) && b.order <= MAX_ORDER && b.addr % PAGE_SIZE == 0
    ensures Sound(Push(lists, b), {}, start, b.End())
    ensures FreeBlocks(Push(lists, b)) == FreeBlocks(lists) + {b}
  {
    TilesExtend(FreeBlocks(lists) + {}, b, start, b.addr);
    assert FreeBlocks(lists) + {b} == FreeBlocks(lists) + {} + {b};
    assert Sound(lists, {b}, start, b.End());
    PushSound(lists, {b}, b, start, b.End());
    assert {b} - {b} == {};
  }

  lemma LeftOver(r: nat, k: nat)
    requires Size(k) <= r
    ensures (r - Size(k)) % PAGE_SIZE == r % PAGE_SIZE
  {
  }

  /** The carved blocks tile the pool's whole pages; less than a page is left over. */
  lemma {:induction false} CarveSound(lists: FreeLists, start: nat, cur: nat, remaining: nat)
    requires start <= cur && cur % PAGE_SIZE == 0 && Sound(lists, {}, start, cur)
    ensures Sound(Carve(lists, cur, remaining), {}, start, cur + remaining - remaining % PAGE_SIZE)
    ensures FreeBlocks(lists) <= FreeBlocks(Carve(lists, cur, remaining))
    decreases remaining
  {
    if remaining >= PAGE_SIZE {
      var b := Block(cur, LargestFit(remaining));
      CarveStepSound(lists, start, b);
      PageMultiple(cur, b.order);
      var next, left := b.End(), remaining - Size(b.order);
      LeftOver(remaining, b.order);
      assert next + left == cur + remaining;
      CarveSound(Push(lists, b), start, next, left);
    }
  }

  // ----- Binary decomposition -----

  lemma DivSubMultiple(n: nat, p: nat, d: nat)
    requires p > 0 && p * d <= n
    ensures n / p >= d && (n - p * d) / p == n / p - d
  {
    var q, r := n / p, n % p;
    if q < d {
      MulMonotone(p, q + 1, d);
      assert false;
    }
    assert n - p * d == (q - d) * p + r;
    QuotientUnique(n - p * d, p, q - d, r);
  }

  lemma DivSub(n: nat, k: nat, o: nat)
    requires k <= o && Pow2(o) <= n
    ensures n / Pow2(k) >= Pow2(o - k)
    ensures (n - Pow2(o)) / Pow2(k) == n / Pow2(k) - Pow2(o - k)
  {
    Pow2Add(k, o - k);
    DivSubMultiple(n, Pow2(k), Pow2(o - k));
  }

  lemma SmallQuotient(n: nat, m: nat)
    requires n < m
    ensures n / m == 0
  {
    QuotientUnique(n, m, 0, n);
  }

  /** Blocks of order k that greedy carving makes out of n pages. */
  function BlocksCarved(n: nat, k: nat): nat {
    if k >= MAX_ORDER then n / Pow2(k) else n / Pow2(k) % 2
  }

  lemma ParityShift(q: nat, d: nat)
    requires q >= 2 * d
    ensures (q - 2 * d) % 2 == q % 2
  {
  }

  lemma DigitBelow(n: nat, o: nat, k: nat)
    requires k < o <= MAX_ORDER && Pow2(o) <= n
    ensures BlocksCarved(n, k) == BlocksCarved(n - Pow2(o), k)
  {
    var p, q, d, m := Pow2(k), n / Pow2(k), Pow2(o - k - 1), n - Pow2(o);
    assert q >= 2 * d && m / p == q - 2 * d by {
      DivSub(n, k, o);
    }
    ParityShift(q, d);
    calc {
      BlocksCarved(m, k);
      m / p % 2;
      q % 2;
      BlocksCarved(n, k);
    }
  }

  lemma DigitAt(n: nat, o: nat)
    requires o <= MAX_ORDER && Pow2(o) <= n && (o < MAX_ORDER ==> n < Pow2(o + 1))
    ensures BlocksCarved(n, o) == BlocksCarved(n - Pow2(o), o) + 1
  {
    var p := Pow2(o);
    DivSub(n, o, o);
    if o < MAX_ORDER {
      assert n < 2 * p;
      QuotientUnique(n, p, 1, n - p);
    }
  }

  lemma DigitAbove(n: nat, o: nat, k: nat)
    requires o < k <= MAX_ORDER && Pow2(o) <= n < Pow2(o + 1)
    ensures BlocksCarved(n, k) == BlocksCarved(n - Pow2(o), k)
  {
    var p := Pow2(k);
    Pow2Increases(o + 1, k);
    SmallQuotient(n, p);
    SmallQuotient(n - Pow2(o), p);
  }

  /** Taking the largest fitting block clears exactly its own binary digit. */
  lemma CarveOneDigit(n: nat, o: nat, k: nat)
    requires k <= MAX_ORDER && o <= MAX_ORDER && Pow2(o) <= n && (o < MAX_ORDER ==> n < Pow2(o + 1))
    ensures BlocksCarved(n, k) == BlocksCarved(n - Pow2(o), k) + if k == o then 1 else 0
  {
    if k < o {
      DigitBelow(n, o, k);
    } else if k == o {
      DigitAt(n, o);
    } else {
      DigitAbove(n, o, k);
    }
  }

  lemma {:induction false} CarveCounts(lists: FreeLists, cur: nat, remaining: nat)
    requires |lists| == MAX_ORDER + 1
    ensures forall k :: 0 <= k <= MAX_ORDER ==>
              |Carve(lists, cur, remaining)[k]| == |lists[k]| + BlocksCarved(remaining / PAGE_SIZE, k)
    decreases remaining
  {
    var n := remaining / PAGE_SIZE;
    if remaining < PAGE_SIZE {
      forall k | 0 <= k <= MAX_ORDER
        ensures BlocksCarved(n, k) == 0
      {
        SmallQuotient(0, Pow2(k));
      }
    } else {
      var b := Block(cur, LargestFit(remaining));
      var o := b.order;
      CarveCounts(Push(lists, b), b.End(), remaining - Size(o));
      assert (remaining - Size(o)) / PAGE_SIZE == n - Pow2(o);
      assert o < MAX_ORDER ==> Size(o + 1) == PAGE_SIZE * Pow2(o + 1);
      forall k | 0 <= k <= MAX_ORDER
        ensures BlocksCarved(n, k) == BlocksCarved(n - Pow2(o), k) + if k == o then 1 else 0
      {
        CarveOneDigit(n, o, k);
      }
    }
  }

  /** Order k gets the k-th binary digit of the page count, the top order all higher digits. */
  lemma InitIsBinaryDecomposition(start: nat, size: nat)
    ensures var lists := Init(start, size).lists; var pages := size / PAGE_SIZE;
            && |lists| == MAX_ORDER + 1
            && |lists[MAX_ORDER]| == pages / Pow2(MAX_ORDER)
            && forall k :: 0 <= k < MAX_ORDER ==> |lists[k]| == pages / Pow2(k) % 2
  {
    CarveCounts(NO_BLOCKS, start, size);
  }

  // ----- The initial state satisfies the invariant -----

  lemma EmptySound(start: nat)
    ensures FreeBlocks(NO_BLOCKS) == {}
    ensures Sound(NO_BLOCKS, {}, start, start)
  {
    assert FreeBlocks(NO_BLOCKS) == {};
  }

  lemma InitInvariant(start: nat, size: nat)
    requires Usable(start, size)
    ensures Invariant(Init(start, size))
  {
    var lists := Init(start, size).lists;
    EmptySound(start);
    CarveSound(NO_BLOCKS, start, start, size);
    assert LiveBlocks(map[]) == {};
    AtMostOneEach(start, size);
    SingletonsCoalesced(lists);
  }

  lemma AtMostOneEach(start: nat, size: nat)
    ensures forall k :: 0 <= k < MAX_ORDER ==> |Init(start, size).lists[k]| <= 1
  {
    InitIsBinaryDecomposition(start, size);
  }

  lemma SingletonsCoalesced(lists: FreeLists)
    requires |lists| == MAX_ORDER + 1 && forall k :: 0 <= k < MAX_ORDER ==> |lists[k]| <= 1
    ensures Coalesced(FreeBlocks(lists))
  {
    hide Xor, Pow2;
    forall b | b in FreeBlocks(lists) && b.order < MAX_ORDER
      ensures b.Buddy() !in FreeBlocks(lists)
    {
      BuddyIsAdjacent(b);
      assert |lists[b.order]| <= 1;
      assert lists[b.order] == [b.addr];
    }
  }

  /** Every state the kernel can reach: partition, no duplicate, full coalescing. */
  lemma ReachableInvariant(start: nat, size: nat, es: seq<Event>)
    requires Usable(start, size) && CanRun(Init(start, size), es)
    ensures Invariant(Run(Init(start, size), es))
    ensures Run(Init(start, size), es).start == start && Run(Init(start, size), es).size == size
  {
    InitInvariant(start, size);
    RunKeeps(Init(start, size), es);
  }
}
