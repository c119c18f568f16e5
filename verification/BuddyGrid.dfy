/** Which addresses blocks can have: how far natural alignment survives carving, splitting and merging. */
module BuddyGrid {
  import opened Bits
  import opened Blocks
  import opened BuddyModel
  import opened BuddyInvariant
  import opened BuddyInit
  import opened Alignment

  /** The stride of the grid for blocks of order k when alignment holds up to order n only. */
  function Stride(k: nat, n: nat): (s: nat)
    ensures s > 0
  {
    Size(if k < n then k else n)
  }

  /** b lies on the grid of its order that starts at address o. */
  ghost predicate OnGrid(b: Block, o: nat, n: nat) {
    o <= b.addr && (b.addr - o) % Stride(b.order, n) == 0
  }

  ghost predicate AllOnGrid(blocks: set<Block>, o: nat, n: nat) {
    forall b :: b in blocks ==> OnGrid(b, o, n)
  }

  ghost predicate GridPool(p: Pool, o: nat, n: nat) {
    AllOnGrid(FreeBlocks(p.lists), o, n) && AllOnGrid(LiveBlocks(p.live), o, n)
  }

  ghost predicate AllDyadic(blocks: set<Block>) {
    forall b :: b in blocks ==> b.Dyadic()
  }

  /** Every block, free or live, is naturally aligned. */
  ghost predicate DyadicPool(p: Pool) {
    AllDyadic(FreeBlocks(p.lists)) && AllDyadic(LiveBlocks(p.live))
  }

  /** Natural alignment is the grid at 0 for all orders. */
  lemma DyadicIsGrid(p: Pool)
    requires Shaped(p)
    ensures DyadicPool(p) <==> GridPool(p, 0, MAX_ORDER)
  {
    assert forall b :: b in FreeBlocks(p.lists) + LiveBlocks(p.live) ==> b.order <= MAX_ORDER;
    assert forall b: Block :: b.order <= MAX_ORDER ==> (OnGrid(b, 0, MAX_ORDER) <==> b.Dyadic());
  }

  // ----- Single blocks -----

  lemma StrideDown(a: nat, j: nat, k: nat, n: nat)
    requires j <= k && a % Stride(k, n) == 0
    ensures a % Stride(j, n) == 0
  {
    AlignedDown(a, if j < n then j else n, if k < n then k else n);
  }

  lemma SizeOnStride(k: nat, n: nat)
    ensures Size(k) % Stride(k, n) == 0
  {
    SizeAligned(if k < n then k else n, k);
  }

  lemma HalvesOnGrid(b: Block, o: nat, n: nat)
    requires OnGrid(b, o, n) && b.order > 0
    ensures OnGrid(b.Lower(), o, n) && OnGrid(b.Upper(), o, n)
  {
    var j := b.order - 1;
    StrideDown(b.addr - o, j, b.order, n);
    SizeOnStride(j, n);
    AlignedSum(b.addr - o, Size(j), Stride(j, n));
  }

  /** Merging keeps to the grid that starts at address 0. */
  lemma ParentOnGrid(b: Block, n: nat)
    requires OnGrid(b, 0, n)
    ensures OnGrid(b.Parent(), 0, n)
  {
    if b.order < n {
      ParentDyadic(b);
    } else {
      hide Xor;
      BuddyIsAdjacent(b);
      SizeAligned(n, b.order);
      AlignedSum(b.addr, Size(b.order), Size(n));
    }
  }

  // ----- Carving -----

  /** The largest block that fits the pool would be naturally aligned at its start. */
  ghost predicate AlignedStart(start: nat, size: nat) {
    size >= PAGE_SIZE ==> start % Size(LargestFit(size)) == 0
  }

  /** The block after the largest fitting one is no larger, so it is aligned too. */
  lemma NextAligned(cur: nat, r: nat, next: nat, left: nat)
    requires PAGE_SIZE <= r && AlignedStart(cur, r)
    requires next == cur + Size(LargestFit(r)) && left == r - Size(LargestFit(r))
    ensures AlignedStart(next, left)
    ensures left >= PAGE_SIZE ==> LargestFit(left) <= LargestFit(r)
  {
    var f := LargestFit(r);
    if left >= PAGE_SIZE {
      var k := LargestFit(left);
      if k > f {
        SizeMonotone(f + 1, k);
        assert false;
      }
      AlignedNext(cur, Size(f));
      AlignedDown(next, k, f);
    }
  }

  /** What carving makes: blocks on the full grid that starts with the pool, the low orders at its very end. */
  ghost predicate Carved(b: Block, start: nat, size: nat) {
    && start <= b.addr && (b.addr - start) % Size(b.order) == 0
    && size >= PAGE_SIZE && b.order <= LargestFit(size)
    && (b.order < MAX_ORDER ==> start + size < b.addr + Size(b.order + 1))
  }

  lemma CarvedBlock(b: Block, start: nat, size: nat, at: nat, left: nat)
    requires b.addr == start + at && at + left == size && PAGE_SIZE <= left && AlignedStart(at, left)
    requires b.order == LargestFit(left) && b.order <= LargestFit(size)
    ensures Carved(b, start, size)
  {
    assert b.addr - start == at;
  }

  lemma {:induction false} CarveCarved(lists: FreeLists, start: nat, size: nat, cur: nat, at: nat, left: nat)
    requires |lists| == MAX_ORDER + 1 && cur == start + at && at + left == size
    requires AlignedStart(at, left) && (left >= PAGE_SIZE ==> LargestFit(left) <= LargestFit(size))
    requires forall b :: b in FreeBlocks(lists) ==> Carved(b, start, size)
    ensures forall b :: b in FreeBlocks(Carve(lists, cur, left)) ==> Carved(b, start, size)
    decreases left
  {
    if left >= PAGE_SIZE {
      var b := Block(cur, LargestFit(left));
      var next, at', left' := b.End(), at + Size(b.order), left - Size(b.order);
      CarvedBlock(b, start, size, at, left);
      PushBlocks(lists, b);
      NextAligned(at, left, at', left');
      hide AlignedStart, Carved, LargestFit, Size;
      CarveCarved(Push(lists, b), start, size, next, at', left');
    }
  }

  lemma PushBlocks(lists: FreeLists, b: Block)
    requires b.order < |lists|
    ensures FreeBlocks(Push(lists, b)) == FreeBlocks(lists) + {b}
  {
    forall c: Block
      ensures c in FreeBlocks(Push(lists, b)) <==> c in FreeBlocks(lists) + {b}
    {
    }
  }

  lemma InitCarved(start: nat, size: nat)
    ensures LiveBlocks(Init(start, size).live) == {}
    ensures forall b :: b in FreeBlocks(Init(start, size).lists) ==> Carved(b, start, size)
  {
    EmptySound(start);
    if size >= PAGE_SIZE {
      FactorAligned(0, Size(LargestFit(size)), 0);
    }
    CarveCarved(NO_BLOCKS, start, size, start, 0, size);
  }

  /** On the grid that starts with the pool, whatever the start. */
  lemma InitOnOwnGrid(start: nat, size: nat, n: nat)
    ensures GridPool(Init(start, size), start, n)
  {
    InitCarved(start, size);
    forall b | b in FreeBlocks(Init(start, size).lists)
      ensures OnGrid(b, start, n)
    {
      AlignedDown(b.addr - start, if b.order < n then b.order else n, b.order);
    }
  }

  /** On the grid of natural alignment up to the order to which the start is aligned. */
  lemma InitOnGrid(start: nat, size: nat, n: nat)
    requires start % Size(n) == 0
    ensures GridPool(Init(start, size), 0, n)
  {
    InitCarved(start, size);
    forall b | b in FreeBlocks(Init(start, size).lists)
      ensures OnGrid(b, 0, n)
    {
      var m := if b.order < n then b.order else n;
      AlignedDown(b.addr - start, m, b.order);
      AlignedDown(start, m, n);
      AlignedSum(b.addr - start, start, Size(m));
    }
  }

  lemma InitDyadic(start: nat, size: nat)
    requires AlignedStart(start, size)
    ensures DyadicPool(Init(start, size))
  {
    InitCarved(start, size);
    forall b | b in FreeBlocks(Init(start, size).lists)
      ensures b.Dyadic()
    {
      AlignedDown(start, b.order, LargestFit(size));
      AlignedSum(b.addr - start, start, Size(b.order));
    }
  }

  // ----- Requests keep to any grid -----

  lemma SplitHeadOnGrid(lists: FreeLists, i: nat, o: nat, n: nat)
    requires 0 < i < |lists| && lists[i] != [] && AllOnGrid(FreeBlocks(lists), o, n)
    ensures AllOnGrid(FreeBlocks(SplitHead(lists, i)), o, n)
  {
    var b := Block(lists[i][0], i);
    var popped := lists[i := lists[i][1..]];
    assert b in FreeBlocks(lists) && FreeBlocks(popped) <= FreeBlocks(lists);
    HalvesOnGrid(b, o, n);
    hide OnGrid;
    PushBlocks(popped, b.Upper());
    PushBlocks(Push(popped, b.Upper()), b.Lower());
  }

  lemma {:induction false} SplitDownOnGrid(lists: FreeLists, i: nat, k: nat, o: nat, n: nat)
    requires k <= i < |lists| && lists[i] != [] && AllOnGrid(FreeBlocks(lists), o, n)
    ensures AllOnGrid(FreeBlocks(SplitDown(lists, i, k)), o, n)
    decreases i
  {
    hide AllOnGrid;
    if k < i {
      SplitHeadOnGrid(lists, i, o, n);
      SplitDownOnGrid(SplitHead(lists, i), i - 1, k, o, n);
    }
  }

  lemma AllocateOnGrid(p: Pool, size: nat, o: nat, n: nat)
    requires Invariant(p) && GridPool(p, o, n)
    ensures GridPool(Allocate(p, size).0, o, n)
  {
    var k := OrderFor(size);
    var i := FirstFit(p.lists, k);
    if i <= MAX_ORDER {
      SplitDownOnGrid(p.lists, i, k, o, n);
      var split := SplitDown(p.lists, i, k);
      var after := split[k := split[k][1..]];
      assert FreeBlocks(after) <= FreeBlocks(split);
      var (q, a) := Allocate(p, size);
      assert Block(a, k) in FreeBlocks(split);
      forall c | c in LiveBlocks(q.live)
        ensures OnGrid(c, o, n)
      {
        assert c == Block(a, k) || c in LiveBlocks(p.live);
      }
    }
  }

  // ----- Releases keep to the grid at 0 -----

  lemma {:induction false} RemoveSubset<T>(s: seq<T>, x: T)
    ensures forall y :: y in Remove(s, x) ==> y in s
  {
    if s != [] && s[0] != x {
      RemoveSubset(s[1..], x);
    }
  }

  lemma {:induction false} CoalesceOnGrid(lists: FreeLists, b: Block, n: nat)
    requires |lists| == MAX_ORDER + 1 && b.order <= MAX_ORDER
    requires AllOnGrid(FreeBlocks(lists), 0, n) && OnGrid(b, 0, n)
    ensures var (rest, m) := Coalesce(lists, b); AllOnGrid(FreeBlocks(rest), 0, n) && OnGrid(m, 0, n)
    decreases MAX_ORDER - b.order
  {
    var u := b.Buddy();
    if b.order < MAX_ORDER && u.addr in lists[b.order] {
      var after := lists[b.order := Remove(lists[b.order], u.addr)];
      RemoveSubset(lists[b.order], u.addr);
      assert FreeBlocks(after) <= FreeBlocks(lists);
      ParentOnGrid(b, n);
      CoalesceOnGrid(after, b.Parent(), n);
    }
  }

  lemma FreeOnGrid(p: Pool, a: nat, n: nat)
    requires Invariant(p) && GridPool(p, 0, n) && a in p.live
    ensures Shaped(p) && GridPool(Free(p, a), 0, n)
  {
    InvariantShape(p);
    var b := Block(a, p.live[a]);
    assert b in LiveBlocks(p.live);
    CoalesceOnGrid(p.lists, b, n);
    var (rest, m) := Coalesce(p.lists, b);
    PushBlocks(rest, m);
    LiveBlocksDrop(p.live, a);
  }

  lemma {:induction false} RunOnGrid(p: Pool, es: seq<Event>, n: nat)
    requires Invariant(p) && GridPool(p, 0, n) && CanRun(p, es)
    ensures GridPool(Run(p, es), 0, n)
    decreases |es|
  {
    if es != [] {
      var m := |es| - 1;
      var q := Run(p, es[..m]);
      RunKeeps(p, es[..m]);
      RunOnGrid(p, es[..m], n);
      match es[m]
      case Alloc(size) => AllocateOnGrid(q, size, 0, n);
      case Release(a) => FreeOnGrid(q, a, n);
    }
  }

  // ----- The same for natural alignment -----

  lemma FreeDyadic(p: Pool, a: nat)
    requires Invariant(p) && DyadicPool(p) && a in p.live
    ensures Shaped(p) && DyadicPool(Free(p, a))
  {
    InvariantShape(p);
    DyadicIsGrid(p);
    FreeOnGrid(p, a, MAX_ORDER);
    FreeKeeps(p, a);
    InvariantShape(Free(p, a));
    DyadicIsGrid(Free(p, a));
  }

  lemma RunDyadic(p: Pool, es: seq<Event>)
    requires Invariant(p) && DyadicPool(p) && CanRun(p, es)
    ensures DyadicPool(Run(p, es))
  {
    InvariantShape(p);
    DyadicIsGrid(p);
    RunOnGrid(p, es, MAX_ORDER);
    RunKeeps(p, es);
    InvariantShape(Run(p, es));
    DyadicIsGrid(Run(p, es));
  }
}
