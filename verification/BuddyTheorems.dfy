/** The allocator's promises over whole runs. */
module BuddyTheorems {
  import opened Bits
  import opened Blocks
  import opened BuddyModel
  import opened BuddyInvariant
  import opened BuddyInit
  import opened Alignment
  import opened BuddyGrid
  import opened BuddyCanonical
  import opened BuddyAccounting

  // ----- Any page-aligned start -----

  /** Every byte of the pool's whole pages belongs to exactly one block, free or live. */
  lemma ExactlyOneBlock(p: Pool, x: nat) returns (b: Block)
    requires Invariant(p) && p.start <= x < p.End()
    ensures b in FreeBlocks(p.lists) + LiveBlocks(p.live) && b.Has(x)
    ensures b in FreeBlocks(p.lists) <==> b !in LiveBlocks(p.live)
    ensures forall c :: c in FreeBlocks(p.lists) + LiveBlocks(p.live) && c.Has(x) ==> c == b
  {
    var all := FreeBlocks(p.lists) + LiveBlocks(p.live);
    assert Covered(all, x);
    b :| b in all && b.Has(x);
    forall c | c in all && c.Has(x)
      ensures c == b
    {
      SameBlock(all, b, c, x, p.start, p.End());
    }
  }

  /** No address is on two lists, or twice on one, or both free and live. */
  lemma ListedOnce(p: Pool, j: nat, i: nat, k: nat, m: nat)
    requires Invariant(p) && j < |p.lists| && i < |p.lists[j]| && k < |p.lists| && m < |p.lists[k]|
    requires p.lists[j][i] == p.lists[k][m]
    ensures j == k && i == m && p.lists[j][i] !in p.live
  {
    var a := p.lists[j][i];
    var b, c := Block(a, j), Block(a, k);
    var all := FreeBlocks(p.lists) + LiveBlocks(p.live);
    assert b in FreeBlocks(p.lists) && c in FreeBlocks(p.lists);
    SameBlock(all, b, c, a, p.start, p.End());
    assert NoDuplicates(p.lists[j]);
    if a in p.live {
      SameBlock(all, b, Block(a, p.live[a]), a, p.start, p.End());
      assert false;
    }
  }

  /** The buddy's address is again a machine word, so the xor of the words is the xor of the numbers. */
  lemma BuddyIsWord(p: Pool, b: Block)
    requires Invariant(p) && b in FreeBlocks(p.lists) + LiveBlocks(p.live)
    ensures b.addr < WORD && Size(b.order) < WORD && b.Buddy().addr < WORD
  {
    WordSize();
    assert Inside(b, p.start, p.End());
    XorWidth(b.addr, Size(b.order), 64);
  }

  // ----- Aligned start: history independence -----

  /** Which free lists hold which blocks depends only on what is live, not on how it came about. */
  lemma HistoryIndependence(start: nat, size: nat, es: seq<Event>, fs: seq<Event>)
    requires Usable(start, size) && AlignedStart(start, size)
    requires CanRun(Init(start, size), es) && CanRun(Init(start, size), fs)
    requires Run(Init(start, size), es).live == Run(Init(start, size), fs).live
    ensures var p, q := Run(Init(start, size), es), Run(Init(start, size), fs);
            forall k :: 0 <= k <= MAX_ORDER ==> multiset(p.lists[k]) == multiset(q.lists[k])
  {
    ReachableDyadic(start, size, es);
    ReachableDyadic(start, size, fs);
    CanonicalLists(Run(Init(start, size), es), Run(Init(start, size), fs));
  }

  lemma ReachableDyadic(start: nat, size: nat, es: seq<Event>)
    requires Usable(start, size) && AlignedStart(start, size) && CanRun(Init(start, size), es)
    ensures Invariant(Run(Init(start, size), es)) && DyadicPool(Run(Init(start, size), es))
    ensures Run(Init(start, size), es).start == start && Run(Init(start, size), es).size == size
  {
    ReachableInvariant(start, size, es);
    InitInvariant(start, size);
    InitDyadic(start, size);
    RunDyadic(Init(start, size), es);
  }

  // ----- Does releasing a block right after it was handed out undo the request? -----

  /** The lists a split of block (a, i) down to order k leaves once its lowest part is taken. */
  ghost predicate SplitLists(lists: FreeLists, a: nat, k: nat, i: nat) {
    |lists| == MAX_ORDER + 1 && k <= i <= MAX_ORDER && forall j :: k <= j < i ==> lists[j] == [a + Size(j)]
  }

  /** Address a is a multiple of twice the size at every order the split went through. */
  ghost predicate SplitAligned(a: nat, k: nat, i: nat) {
    forall j :: k <= j < i ==> a / Size(j) % 2 == 0
  }

  /** With every bit clear the block merges all the way back up to order i. */
  lemma {:induction false} MergesBack(lists: FreeLists, a: nat, k: nat, i: nat)
    requires SplitLists(lists, a, k, i) && SplitAligned(a, k, i)
    requires i < MAX_ORDER ==> Block(a, i).Buddy().addr !in lists[i]
    ensures var (rest, m) := Coalesce(lists, Block(a, k));
            && m == Block(a, i) && |rest| == |lists|
            && forall j :: 0 <= j <= MAX_ORDER ==> rest[j] == if k <= j < i then [] else lists[j]
    decreases i - k
  {
    var b := Block(a, k);
    BuddyFlips(b);
    if k < i {
      var u := a + Size(k);
      assert a / Size(k) % 2 == 0 && lists[k] == [u];
      var after := lists[k := Remove(lists[k], u)];
      assert Remove([u], u) == [];
      CoalesceStep(lists, b, after);
      MergesBack(after, a, k + 1, i);
    } else {
      CoalesceStops(lists, b);
    }
  }

  /** A set bit on the way leaves the block stranded at a lower order. */
  lemma {:induction false} MergeStranded(lists: FreeLists, a: nat, k: nat, i: nat)
    requires SplitLists(lists, a, k, i) && !SplitAligned(a, k, i)
    ensures Coalesce(lists, Block(a, k)).1.addr == a && Coalesce(lists, Block(a, k)).1.order < i
    decreases i - k
  {
    var b := Block(a, k);
    BuddyFlips(b);
    var u := a + Size(k);
    assert lists[k] == [u];
    if a / Size(k) % 2 == 0 {
      var after := lists[k := Remove(lists[k], u)];
      CoalesceStep(lists, b, after);
      MergeStranded(after, a, k + 1, i);
    } else {
      CoalesceStops(lists, b);
    }
  }

  /** q is p after block (a, k) was cut from the head of list i. */
  ghost predicate Granted(p: Pool, q: Pool, a: nat, k: nat, i: nat) {
    && |p.lists| == MAX_ORDER + 1 && SplitLists(q.lists, a, k, i)
    && p.lists[i] != [] && p.lists[i][0] == a && q.lists[i] == p.lists[i][1..]
    && (forall j :: k <= j < i ==> p.lists[j] == [])
    && (forall j :: 0 <= j <= MAX_ORDER && (j < k || j > i) ==> q.lists[j] == p.lists[j])
    && a !in p.live && q == p.(lists := q.lists, live := p.live[a := k])
  }

  lemma TakenLists(lists: FreeLists, i: nat, k: nat)
    requires |lists| == MAX_ORDER + 1 && k <= i <= MAX_ORDER && lists[i] != []
    requires forall j :: k <= j < i ==> lists[j] == []
    ensures var split := SplitDown(lists, i, k); var a := lists[i][0]; var after := split[k := split[k][1..]];
            && split[k][0] == a && SplitLists(after, a, k, i) && after[i] == lists[i][1..]
            && forall j :: 0 <= j <= MAX_ORDER && (j < k || j > i) ==> after[j] == lists[j]
  {
    hide SplitDown, Size;
    SplitDownShape(lists, i, k);
    var a := lists[i][0];
    assert k < i ==> [a, a + Size(k)][1..] == [a + Size(k)];
  }

  lemma AllocateGrants(p: Pool, request: nat)
    requires Invariant(p) && Allocate(p, request).1 != 0
    ensures FirstFit(p.lists, OrderFor(request)) <= MAX_ORDER
    ensures Granted(p, Allocate(p, request).0, Allocate(p, request).1,
                    OrderFor(request), FirstFit(p.lists, OrderFor(request)))
  {
    var k := OrderFor(request);
    var i := FirstFit(p.lists, k);
    AllocateKeeps(p, request);
    TakenLists(p.lists, i, k);
  }

  lemma GrantUndone(p: Pool, q: Pool, a: nat, k: nat, i: nat)
    requires Coalesced(FreeBlocks(p.lists)) && Granted(p, q, a, k, i) && SplitAligned(a, k, i) && Shaped(q)
    ensures Free(q, a).lists == p.lists
  {
    TailUnlisted(p.lists, i, Block(a, i).Buddy());
    MergesBack(q.lists, a, k, i);
    assert [a] + p.lists[i][1..] == p.lists[i];
    hide Xor, Coalesced, SplitAligned, Coalesce;
    var (rest, m) := Coalesce(q.lists, Block(a, k));
    assert Push(rest, m) == p.lists;
  }

  lemma GrantStranded(p: Pool, q: Pool, a: nat, k: nat, i: nat)
    requires Invariant(p) && Granted(p, q, a, k, i) && !SplitAligned(a, k, i) && Shaped(q)
    ensures FreeBlocks(Free(q, a).lists) != FreeBlocks(p.lists)
  {
    MergeStranded(q.lists, a, k, i);
    hide Xor, SplitAligned, SplitLists, Coalesce;
    var (rest, m) := Coalesce(q.lists, Block(a, k));
    assert m in FreeBlocks(Push(rest, m)) && Block(a, i) in FreeBlocks(p.lists);
    if m in FreeBlocks(p.lists) {
      SameBlock(FreeBlocks(p.lists) + LiveBlocks(p.live), m, Block(a, i), a, p.start, p.End());
      assert false;
    }
  }

  lemma FreeAfterGrant(p: Pool, q: Pool, a: nat, k: nat, i: nat)
    requires Invariant(p) && Granted(p, q, a, k, i)
    ensures Shaped(p) && Shaped(q) && Free(q, a).live == p.live
    ensures SplitAligned(a, k, i) ==> Free(q, a).lists == p.lists
    ensures !SplitAligned(a, k, i) ==> FreeBlocks(Free(q, a).lists) != FreeBlocks(p.lists)
  {
    InvariantShape(p);
    assert q.live - {a} == p.live;
    if SplitAligned(a, k, i) {
      GrantUndone(p, q, a, k, i);
    } else {
      GrantStranded(p, q, a, k, i);
    }
  }

  /** Releasing a block right after it was handed out restores the lists, in order, exactly when the head of the
      first sufficient list, which the request is served from, has a clear bit at every order it is split through. */
  lemma FreeUndoesAllocateIff(p: Pool, request: nat)
    requires Invariant(p) && Allocate(p, request).1 != 0
    ensures var k := OrderFor(request); var i := FirstFit(p.lists, k); var (q, a) := Allocate(p, request);
            && i < |p.lists| && p.lists[i] != [] && Shaped(q) && a in q.live && Free(q, a).live == p.live
            && (SplitAligned(p.lists[i][0], k, i) ==> Free(q, a).lists == p.lists)
            && (!SplitAligned(p.lists[i][0], k, i) ==> FreeBlocks(Free(q, a).lists) != FreeBlocks(p.lists))
  {
    AllocateGrants(p, request);
    hide Allocate, Free, FirstFit, OrderFor, Invariant, SplitAligned, SplitLists;
    var (q, a) := Allocate(p, request);
    FreeAfterGrant(p, q, a, OrderFor(request), FirstFit(p.lists, OrderFor(request)));
  }

  lemma TailUnlisted(lists: FreeLists, i: nat, b: Block)
    requires i < |lists| && lists[i] != [] && b.order == i
    requires Coalesced(FreeBlocks(lists)) && b == Block(lists[i][0], i).Buddy()
    ensures i < MAX_ORDER ==> b.addr !in lists[i][1..]
  {
    assert Block(lists[i][0], i) in FreeBlocks(lists);
    assert b.addr in lists[i] ==> b in FreeBlocks(lists);
  }

  lemma DyadicSplitAligned(a: nat, k: nat, i: nat)
    requires Block(a, i).Dyadic()
    ensures SplitAligned(a, k, i)
  {
    forall j: nat | k <= j < i
      ensures a / Size(j) % 2 == 0
    {
      AlignedDown(a, j + 1, i);
      assert Size(j + 1) == 2 * Size(j);
      AlignedTwice(a, Size(j));
    }
  }

  lemma HeadDyadic(p: Pool, i: nat)
    requires DyadicPool(p) && i < |p.lists| && p.lists[i] != []
    ensures Block(p.lists[i][0], i).Dyadic()
  {
    assert Block(p.lists[i][0], i) in FreeBlocks(p.lists);
  }

  /** In an aligned pool a release always undoes the request just before it. */
  lemma FreeUndoesAllocate(p: Pool, request: nat)
    requires Invariant(p) && DyadicPool(p) && Allocate(p, request).1 != 0
    ensures var (q, a) := Allocate(p, request);
            Shaped(q) && a in q.live && Free(q, a).live == p.live && Free(q, a).lists == p.lists
  {
    AllocateGrants(p, request);
    hide Allocate, Free, FirstFit, OrderFor, Invariant, SplitAligned, DyadicPool;
    var a, k := Allocate(p, request).1, OrderFor(request);
    var i := FirstFit(p.lists, k);
    FreeUndoesAllocateIff(p, request);
    HeadDyadic(p, i);
    DyadicSplitAligned(a, k, i);
  }

  // ----- Allocation -----

  /** An aligned run that is unused lies inside a free block, and the request is served. */
  lemma RunServed(p: Pool, b: Block)
    requires Invariant(p) && DyadicPool(p) && b.order <= MAX_ORDER && b.Dyadic()
    requires Unused(b, p.start, p.End(), p.live)
    ensures exists j :: b.order <= j < |p.lists| && p.lists[j] != []
  {
    var c := UnusedInsideFree(p, b);
    assert p.lists[c.order] != [];
  }

  /** A block that can serve a request starts with an aligned run of its order. */
  lemma BlockStartsRun(p: Pool, k: nat, i: nat)
    requires Invariant(p) && DyadicPool(p) && k <= i < |p.lists| && p.lists[i] != []
    ensures exists b: Block :: b.order == k && b.Dyadic() && Unused(b, p.start, p.End(), p.live)
  {
    var c := Block(p.lists[i][0], i);
    assert c in FreeBlocks(p.lists);
    FreeBlockUnused(p, c);
    AlignedDown(c.addr, k, i);
    SizeMonotone(k, i);
    hide Invariant, DyadicPool;
    assert Block(c.addr, k).Dyadic() && Unused(Block(c.addr, k), p.start, p.End(), p.live);
  }

  /** A request fails exactly when no naturally aligned run of pages of its order is unused. */
  lemma AllocationComplete(p: Pool, request: nat)
    requires Invariant(p) && DyadicPool(p)
    ensures Allocate(p, request).1 == 0
            <==> !exists b: Block :: b.order == OrderFor(request) && b.Dyadic() && Unused(b, p.start, p.End(), p.live)
  {
    var k := OrderFor(request);
    AllocateKeeps(p, request);
    hide Invariant, DyadicPool, Allocate, Unused, Block.Dyadic, OrderFor;
    if b: Block :| b.order == k && b.Dyadic() && Unused(b, p.start, p.End(), p.live) {
      RunServed(p, b);
    }
    if FirstFit(p.lists, k) <= MAX_ORDER {
      InvariantShape(p);
      BlockStartsRun(p, k, FirstFit(p.lists, k));
    }
  }

  /** So it is in every state that a pool with an aligned start can reach. */
  lemma CompleteInAlignedPools(start: nat, size: nat, es: seq<Event>, request: nat)
    requires Usable(start, size) && AlignedStart(start, size) && CanRun(Init(start, size), es)
    ensures var p := Run(Init(start, size), es);
            && |p.lists| == MAX_ORDER + 1
            && (Allocate(p, request).1 == 0 <==>
                !exists b: Block :: b.order == OrderFor(request) && b.Dyadic() && Unused(b, start, p.End(), p.live))
  {
    hide Allocate, Init, Unused;
    ReachableDyadic(start, size, es);
    AllocationComplete(Run(Init(start, size), es), request);
  }

  /** What a request gets: a block of the least sufficient order, cut from the head of the first
      non-empty sufficient list. It covers the request exactly when the request is within the top size. */
  lemma AllocationFits(p: Pool, request: nat)
    requires Invariant(p) && Allocate(p, request).1 != 0
    ensures var (q, a) := Allocate(p, request); var k := OrderFor(request);
            && a in q.live && q.live[a] == k && q.live == p.live[a := k]
            && (k > 0 ==> Size(k - 1) < request)
            && (request <= Size(k) <==> request <= Size(MAX_ORDER))
            && exists i :: k <= i <= MAX_ORDER && p.lists[i] != [] && p.lists[i][0] == a
                           && forall j :: k <= j < i ==> p.lists[j] == []
  {
    var k := OrderFor(request);
    AllocateKeeps(p, request);
    var i := FirstFit(p.lists, k);
    SplitDownShape(p.lists, i, k);
    SizeMonotone(k, MAX_ORDER);
  }

  lemma TopSize()
    ensures Size(MAX_ORDER) == 8388608
  {
    Pow2Add(4, 7);
    assert Pow2(4) == 16 && Pow2(7) == 128;
  }

  /** Such a request is granted: in an 8 MiB pool at 8 MiB, one byte more than the pool holds gets the whole of it. */
  lemma OversizedGranted()
    ensures Usable(8388608, 8388608) && OrderFor(8388609) == MAX_ORDER && Size(OrderFor(8388609)) == 8388608
    ensures Allocate(Init(8388608, 8388608), 8388609).1 != 0
  {
    TopSize();
    OversizedOrder();
    hide Size, Pow2, OrderFor;
    var p := Init(8388608, 8388608);
    InitInvariant(8388608, 8388608);
    FitUnique(8388608, LargestFit(8388608), MAX_ORDER);
    FirstBlockFree(8388608, 8388608);
    AllocateKeeps(p, 8388609);
    assert p.lists[MAX_ORDER] != [];
  }

  lemma OversizedOrder()
    ensures OrderFor(8388609) == MAX_ORDER
  {
    hide OrderFor;
    TopSize();
    SizeMonotone(MAX_ORDER - 1, MAX_ORDER);
    OrderUnique(8388609, MAX_ORDER);
  }

  /** Only one order is least sufficient. */
  lemma OrderUnique(size: nat, r: nat)
    requires r <= MAX_ORDER && (r > 0 ==> Size(r - 1) < size) && (r < MAX_ORDER ==> size <= Size(r))
    ensures r == OrderFor(size)
  {
    hide OrderFor;
    var f := OrderFor(size);
    if f < r {
      SizeMonotone(f, r - 1);
    } else if r < f {
      SizeMonotone(r, f - 1);
    }
  }

  /** The order is recovered from the size word of a block. */
  lemma OrderOfSize(k: nat)
    requires k <= MAX_ORDER
    ensures OrderFor(Size(k)) == k
  {
    if k > 0 {
      SizeMonotone(k - 1, k);
    }
    OrderUnique(Size(k), k);
  }

  // ----- Without alignment, completeness can fail -----

  lemma SmallSizes()
    ensures Size(0) == 4096 && Size(1) == 8192 && Size(2) == 16384 && Size(3) == 32768
  {
  }

  lemma SmallOrders()
    ensures OrderFor(8192) == 1 && OrderFor(16384) == 2
  {
    SmallSizes();
    OrderOfSize(1);
    OrderOfSize(2);
  }

  /** Five pages from page 3 on, with these lists of orders 0, 1 and 2. */
  function FivePages(zero: seq<nat>, one: seq<nat>, two: seq<nat>, live: map<nat, nat>): Pool {
    Pool(12288, 20480, [zero, one, two, [], [], [], [], [], [], [], [], []], live)
  }

  lemma FivePagesInit()
    ensures !AlignedStart(12288, 20480) && Init(12288, 20480) == FivePages([28672], [], [12288], map[])
  {
    SmallSizes();
    FitUnique(20480, LargestFit(20480), 2);
    FitUnique(4096, LargestFit(4096), 0);
    var lists1 := NO_BLOCKS[2 := [12288]];
    assert [12288] + [] == [12288] && [28672] + [] == [28672];
    assert Push(NO_BLOCKS, Block(12288, 2)) == lists1;
    assert Carve(NO_BLOCKS, 12288, 20480) == Carve(lists1, 28672, 4096);
    assert Push(lists1, Block(28672, 0)) == lists1[0 := [28672]];
    assert Carve(lists1, 28672, 4096) == Carve(lists1[0 := [28672]], 32768, 0);
  }

  lemma FivePagesSplit()
    ensures var lists := FivePages([28672], [], [12288], map[]).lists;
            SplitDown(lists, 2, 1) == FivePages([28672], [12288, 20480], [], map[]).lists
  {
    SmallSizes();
    hide Size;
    var lists, b := FivePages([28672], [], [12288], map[]).lists, Block(12288, 2);
    assert b.Lower() == Block(12288, 1) && b.Upper() == Block(20480, 1);
    assert [12288][1..] == [] && [20480] + [] == [20480] && [12288] + [20480] == [12288, 20480];
    var popped := lists[2 := []];
    assert Push(popped, b.Upper()) == popped[1 := [20480]];
    var split := popped[1 := [12288, 20480]];
    assert Push(popped[1 := [20480]], b.Lower()) == split;
    assert SplitHead(lists, 2) == split;
    assert SplitDown(lists, 2, 1) == SplitDown(split, 1, 1) == split;
  }

  lemma FivePagesAllocate()
    ensures Allocate(FivePages([28672], [], [12288], map[]), 8192).0
            == FivePages([28672], [20480], [], map[12288 := 1])
  {
    SmallOrders();
    FivePagesSplit();
    hide SplitDown;
    assert FirstFit(FivePages([28672], [], [12288], map[]).lists, 1) == 2;
    assert [12288, 20480][1..] == [20480];
  }

  lemma FivePagesFree()
    ensures Free(FivePages([28672], [20480], [], map[12288 := 1]), 12288)
            == FivePages([28672], [12288, 20480], [], map[])
  {
    SmallSizes();
    var p, b := FivePages([28672], [20480], [], map[12288 := 1]), Block(12288, 1);
    assert b.Buddy().addr == 4096 by {
      BuddyFlips(b);
    }
    CoalesceStops(p.lists, b);
    assert [12288] + [20480] == [12288, 20480];
    assert Push(p.lists, b) == FivePages([28672], [12288, 20480], [], map[]).lists;
    assert p.live - {12288} == map[];
  }

  lemma FivePagesRun()
    ensures var init, es := Init(12288, 20480), [Alloc(8192), Release(12288)];
            CanRun(init, es) && Run(init, es) == FivePages([28672], [12288, 20480], [], map[])
  {
    FivePagesInit();
    FivePagesAllocate();
    FivePagesFree();
    var init, e, f := Init(12288, 20480), Alloc(8192), Release(12288);
    RunOneMore(init, [], e);
    assert [] + [e] == [e];
    RunOneMore(init, [e], f);
    assert [e] + [f] == [e, f];
  }

  /** A pool of five pages from page 3 on: after a two-page block was handed out and released, the aligned
      run of pages 4 to 7 is unused, yet a request for four pages gets nothing. */
  lemma MisalignedPoolIncomplete()
    ensures var init, es := Init(12288, 20480), [Alloc(8192), Release(12288)];
            && Usable(12288, 20480) && !AlignedStart(12288, 20480) && CanRun(init, es)
            && var p, b := Run(init, es), Block(16384, 2);
               && b.Dyadic() && b.order == OrderFor(16384) && Unused(b, p.start, p.End(), p.live)
               && Allocate(p, 16384).1 == 0
  {
    SmallSizes();
    SmallOrders();
    FivePagesInit();
    FivePagesRun();
    FivePagesExhausted(FivePages([28672], [12288, 20480], [], map[]), Block(16384, 2));
  }

  lemma FivePagesExhausted(p: Pool, b: Block)
    requires p == FivePages([28672], [12288, 20480], [], map[]) && b == Block(16384, 2)
    ensures b.Dyadic() && Unused(b, p.start, p.End(), p.live) && Allocate(p, 16384).1 == 0
  {
    SmallSizes();
    SmallOrders();
    assert FirstFit(p.lists, 2) == MAX_ORDER + 1;
    assert LiveBlocks(p.live) == {};
  }

  // ----- When does releasing everything restore the initial free sets? -----

  ghost predicate RestoresInit(start: nat, size: nat) {
    forall es :: CanRun(Init(start, size), es) && Run(Init(start, size), es).live == map[]
                 ==> FreeBlocks(Run(Init(start, size), es).lists) == FreeBlocks(Init(start, size).lists)
  }

  ghost predicate OnlyPages(live: map<nat, nat>) {
    forall a :: a in live ==> live[a] == 0
  }

  lemma OnePageOrder()
    ensures OrderFor(1) == 0
  {
  }

  /** A one-page request takes a page and leaves less. */
  lemma DrainPage(p: Pool)
    requires Invariant(p) && OnlyPages(p.live) && FirstFit(p.lists, 0) <= MAX_ORDER
    ensures Shaped(p) && Invariant(Allocate(p, 1).0) && OnlyPages(Allocate(p, 1).0.live)
    ensures FreeTotal(Allocate(p, 1).0.lists) < FreeTotal(p.lists)
  {
    hide Allocate, Invariant;
    InvariantShape(p);
    OnePageOrder();
    AllocateKeeps(p, 1);
    AllocateTotal(p, 1);
  }

  /** One-page requests until none succeeds leave every page live on its own. */
  lemma DrainPool(init: Pool) returns (es: seq<Event>)
    requires Invariant(init) && init.live == map[]
    ensures CanRun(init, es) && OnlyPages(Run(init, es).live) && FreeBlocks(Run(init, es).lists) == {}
  {
    hide Allocate, Invariant;
    es := [];
    while FirstFit(Run(init, es).lists, 0) <= MAX_ORDER
      invariant CanRun(init, es) && Invariant(Run(init, es)) && OnlyPages(Run(init, es).live)
      decreases FreeTotal(Run(init, es).lists)
    {
      DrainPage(Run(init, es));
      RunOneMore(init, es, Alloc(1));
      es := es + [Alloc(1)];
    }
    var p := Run(init, es);
    InvariantShape(p);
    assert forall k :: 0 <= k < |p.lists| ==> p.lists[k] == [];
  }

  lemma PagesDyadic(p: Pool)
    requires Invariant(p) && OnlyPages(p.live) && FreeBlocks(p.lists) == {}
    ensures DyadicPool(p)
  {
    forall b | b in LiveBlocks(p.live)
      ensures b.Dyadic()
    {
      assert Inside(b, p.start, p.End());
    }
  }

  lemma ReleaseAll(init: Pool, es: seq<Event>) returns (fs: seq<Event>)
    requires CanRun(init, es) && Invariant(Run(init, es)) && DyadicPool(Run(init, es))
    ensures CanRun(init, fs) && Run(init, fs).live == map[] && DyadicPool(Run(init, fs))
  {
    fs := es;
    while Run(init, fs).live != map[]
      invariant CanRun(init, fs) && Invariant(Run(init, fs)) && DyadicPool(Run(init, fs))
      decreases |Run(init, fs).live|
    {
      var p := Run(init, fs);
      var a :| a in p.live;
      FreeKeeps(p, a);
      FreeDyadic(p, a);
      RunOneMore(init, fs, Release(a));
      fs := fs + [Release(a)];
    }
  }

  lemma FirstBlockFree(start: nat, size: nat)
    requires Usable(start, size) && size >= PAGE_SIZE
    ensures Block(start, LargestFit(size)) in FreeBlocks(Init(start, size).lists)
  {
    var b := Block(start, LargestFit(size));
    EmptySound(start);
    CarveStepSound(NO_BLOCKS, start, b);
    PageMultiple(start, b.order);
    CarveSound(Push(NO_BLOCKS, b), start, b.End(), size - Size(b.order));
  }

  /** Exactly the pools whose largest fitting block is naturally aligned at the start come back to
      the initial free sets whenever everything is released. */
  lemma RestoresInitIffAligned(start: nat, size: nat)
    requires Usable(start, size)
    ensures RestoresInit(start, size) <==> AlignedStart(start, size)
  {
    var init := Init(start, size);
    InitInvariant(start, size);
    if AlignedStart(start, size) {
      InitDyadic(start, size);
      forall es | CanRun(init, es) && Run(init, es).live == map[]
        ensures FreeBlocks(Run(init, es).lists) == FreeBlocks(init.lists)
      {
        ReachableDyadic(start, size, es);
        CanonicalLists(Run(init, es), init);
      }
    }
    if RestoresInit(start, size) && size >= PAGE_SIZE {
      var es := DrainPool(init);
      RunKeeps(init, es);
      PagesDyadic(Run(init, es));
      var fs := ReleaseAll(init, es);
      FirstBlockFree(start, size);
      assert Block(start, LargestFit(size)).Dyadic();
    }
  }

  /** Runs that end with the same live blocks end with the same free blocks. */
  ghost predicate HistoryIndependent(start: nat, size: nat) {
    forall es, fs ::
      CanRun(Init(start, size), es) && CanRun(Init(start, size), fs)
      && Run(Init(start, size), es).live == Run(Init(start, size), fs).live
      ==> FreeBlocks(Run(Init(start, size), es).lists) == FreeBlocks(Run(Init(start, size), fs).lists)
  }

  /** The same condition decides whether the free blocks depend on anything but the live blocks. */
  lemma HistoryIndependentIffAligned(start: nat, size: nat)
    requires Usable(start, size)
    ensures HistoryIndependent(start, size) <==> AlignedStart(start, size)
  {
    var init := Init(start, size);
    if AlignedStart(start, size) {
      forall es, fs | CanRun(init, es) && CanRun(init, fs) && Run(init, es).live == Run(init, fs).live
        ensures FreeBlocks(Run(init, es).lists) == FreeBlocks(Run(init, fs).lists)
      {
        ReachableDyadic(start, size, es);
        ReachableDyadic(start, size, fs);
        CanonicalLists(Run(init, es), Run(init, fs));
      }
    }
    if HistoryIndependent(start, size) {
      assert CanRun(init, []) && Run(init, []) == init;
      assert RestoresInit(start, size);
      RestoresInitIffAligned(start, size);
    }
  }
}
