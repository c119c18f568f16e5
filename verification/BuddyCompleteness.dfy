/** For which pools a request fails only when no naturally aligned run of pages of its order is unused. */
module BuddyCompleteness {
  import opened Bits
  import opened Blocks
  import opened BuddyModel
  import opened BuddyInvariant
  import opened BuddyInit
  import opened Alignment
  import opened BuddyGrid
  import opened BuddyCanonical
  import opened BuddyAccounting
  import opened BuddyTheorems

  // ----- Reachable states -----

  /** Some run of requests and releases from initialisation ends in p. */
  ghost predicate Reachable(start: nat, size: nat, p: Pool) {
    exists es :: CanRun(Init(start, size), es) && p == Run(Init(start, size), es)
  }

  lemma InitReachable(start: nat, size: nat)
    ensures Reachable(start, size, Init(start, size))
  {
    var init, none: seq<Event> := Init(start, size), [];
    assert CanRun(init, none) && Run(init, none) == init;
  }

  lemma StepReachable(start: nat, size: nat, p: Pool, e: Event)
    requires Reachable(start, size, p) && CanStep(p, e)
    ensures Reachable(start, size, Step(p, e))
  {
    var init := Init(start, size);
    var es :| CanRun(init, es) && p == Run(init, es);
    RunOneMore(init, es, e);
    assert CanRun(init, es + [e]) && Step(p, e) == Run(init, es + [e]);
  }

  lemma ReachableSound(start: nat, size: nat, p: Pool)
    requires Usable(start, size) && Reachable(start, size, p)
    ensures Invariant(p) && Shaped(p) && p.start == start && p.size == size
  {
    var es :| CanRun(Init(start, size), es) && p == Run(Init(start, size), es);
    ReachableInvariant(start, size, es);
    InvariantShape(p);
  }

  // ----- The condition -----

  /** An aligned run of pages of the request's order is unused, and yet the request gets nothing. */
  ghost predicate Fails(p: Pool, request: nat) {
    && Shaped(p) && Allocate(p, request).1 == 0
    && exists b: Block :: b.order == OrderFor(request) && b.Dyadic() && Unused(b, p.start, p.End(), p.live)
  }

  ghost predicate Complete(start: nat, size: nat) {
    forall p, request: nat :: Reachable(start, size, p) ==> !Fails(p, request)
  }

  /** Wherever a naturally aligned run of order k fits in the pool, the start is aligned to order k - 1. */
  ghost predicate FineStart(start: nat, size: nat) {
    forall b: Block ::
      0 < b.order <= MAX_ORDER && b.Dyadic() && start <= b.addr && b.End() <= start + (size - size % PAGE_SIZE)
      ==> start % Size(b.order - 1) == 0
  }

  // ----- The condition suffices -----

  lemma ReachableOnGrid(start: nat, size: nat, p: Pool, n: nat)
    requires Usable(start, size) && Reachable(start, size, p) && start % Size(n) == 0
    ensures GridPool(p, 0, n)
  {
    var es :| CanRun(Init(start, size), es) && p == Run(Init(start, size), es);
    InitInvariant(start, size);
    InitOnGrid(start, size, n);
    RunOnGrid(Init(start, size), es, n);
  }

  lemma LowBlocksDyadic(p: Pool, n: nat)
    requires GridPool(p, 0, n) && forall j :: n < j < |p.lists| ==> p.lists[j] == []
    ensures AllDyadic(FreeBlocks(p.lists))
  {
    forall c | c in FreeBlocks(p.lists)
      ensures c.Dyadic()
    {
      assert OnGrid(c, 0, n) && c.order <= n;
    }
  }

  /** With every free block below its order aligned, an aligned run that is unused cannot be missed. */
  lemma NoneMissed(p: Pool, b: Block)
    requires Invariant(p) && b.order <= MAX_ORDER && b.Dyadic() && Unused(b, p.start, p.End(), p.live)
    requires b.order > 0 ==> GridPool(p, 0, b.order - 1)
    ensures exists j :: b.order <= j < |p.lists| && p.lists[j] != []
  {
    if forall j :: b.order <= j < |p.lists| ==> p.lists[j] == [] {
      if b.order > 0 {
        LowBlocksDyadic(p, b.order - 1);
        var c := UnusedInsideFree(p, b);
      } else {
        var c := UnusedByteIsFree(p, b, b.addr);
      }
      assert false;
    }
  }

  /** A failed request leaves free blocks below its order only, and a fine start makes those aligned. */
  lemma FineStartComplete(start: nat, size: nat, p: Pool, request: nat)
    requires Usable(start, size) && FineStart(start, size) && Reachable(start, size, p)
    ensures !Fails(p, request)
  {
    hide Reachable, Invariant, Unused, GridPool, Allocate, OrderFor;
    ReachableSound(start, size, p);
    AllocateKeeps(p, request);
    forall b: Block | b.order == OrderFor(request) && b.Dyadic() && Unused(b, p.start, p.End(), p.live)
      ensures FirstFit(p.lists, b.order) <= MAX_ORDER
    {
      UnusedBounds(b, p.start, p.End(), p.live);
      if b.order > 0 {
        ReachableOnGrid(start, size, p, b.order - 1);
      }
      NoneMissed(p, b);
    }
  }

  lemma UnusedBounds(b: Block, lo: nat, hi: nat, live: map<nat, nat>)
    requires Unused(b, lo, hi, live)
    ensures lo <= b.addr && b.End() <= hi
  {
  }

  // ----- The condition is necessary: draining the pool on its own grid -----

  /** q is p after requests of order m took everything from list m up. */
  ghost predicate Drained(p: Pool, q: Pool, m: nat) {
    && |p.lists| == MAX_ORDER + 1 && |q.lists| == MAX_ORDER + 1
    && (forall j :: 0 <= j < m && j <= MAX_ORDER ==> q.lists[j] == p.lists[j])
    && (forall j :: m <= j <= MAX_ORDER ==> q.lists[j] == [])
    && OnlyAdded(p, q, m)
  }

  /** Whatever is live in q but was not in p has order m. */
  ghost predicate OnlyAdded(p: Pool, q: Pool, m: nat) {
    && (forall a :: a in p.live ==> a in q.live && q.live[a] == p.live[a])
    && (forall a :: a in q.live && a !in p.live ==> q.live[a] == m)
  }

  lemma Drain(start: nat, size: nat, p: Pool, m: nat, n: nat) returns (q: Pool)
    requires Usable(start, size) && Reachable(start, size, p) && GridPool(p, start, n) && m <= MAX_ORDER
    ensures Reachable(start, size, q) && GridPool(q, start, n) && Drained(p, q, m)
  {
    q := p;
    ReachableSound(start, size, p);
    while FirstFit(q.lists, m) <= MAX_ORDER
      invariant Reachable(start, size, q) && Invariant(q) && GridPool(q, start, n)
      invariant |q.lists| == MAX_ORDER + 1 && forall j :: 0 <= j < m ==> q.lists[j] == p.lists[j]
      invariant OnlyAdded(p, q, m)
      decreases FreeTotal(q.lists)
    {
      q := DrainStep(start, size, q, m, n);
    }
  }

  lemma DrainStep(start: nat, size: nat, p: Pool, m: nat, n: nat) returns (q: Pool)
    requires Usable(start, size) && Reachable(start, size, p) && Invariant(p) && GridPool(p, start, n)
    requires m <= MAX_ORDER && |p.lists| == MAX_ORDER + 1 && FirstFit(p.lists, m) <= MAX_ORDER
    ensures Reachable(start, size, q) && Invariant(q) && GridPool(q, start, n)
    ensures |q.lists| == MAX_ORDER + 1 && forall j :: 0 <= j < m ==> q.lists[j] == p.lists[j]
    ensures OnlyAdded(p, q, m) && FreeTotal(q.lists) < FreeTotal(p.lists)
  {
    OrderOfSize(m);
    InvariantShape(p);
    AllocateKeeps(p, Size(m));
    AllocateTotal(p, Size(m));
    AllocateGrants(p, Size(m));
    AllocateOnGrid(p, Size(m), start, n);
    StepReachable(start, size, p, Alloc(Size(m)));
    q := Allocate(p, Size(m)).0;
  }

  /** Free blocks below order m lie within the last Size(m) bytes of the pool. */
  ghost predicate TailFree(p: Pool, m: nat) {
    forall b :: b in FreeBlocks(p.lists) && b.order < m ==> p.start + p.size < b.addr + Size(m)
  }

  lemma InitTailFree(start: nat, size: nat, m: nat)
    requires m <= MAX_ORDER
    ensures TailFree(Init(start, size), m)
  {
    InitCarved(start, size);
    forall b | b in FreeBlocks(Init(start, size).lists) && b.order < m
      ensures start + size < b.addr + Size(m)
    {
      SizeMonotone(b.order + 1, m);
    }
  }

  lemma TailFreeKept(p: Pool, q: Pool, m: nat)
    requires TailFree(p, m) && q.start == p.start && q.size == p.size
    requires |p.lists| == MAX_ORDER + 1 && |q.lists| == MAX_ORDER + 1
    requires forall j :: 0 <= j < m && j <= MAX_ORDER ==> q.lists[j] == p.lists[j]
    ensures TailFree(q, m)
  {
    forall b | b in FreeBlocks(q.lists) && b.order < m
      ensures p.start + p.size < b.addr + Size(m)
    {
      assert b in FreeBlocks(p.lists);
    }
  }

  lemma SameGridPoint(a: nat, g: nat, o: nat, s: nat)
    requires s > 0 && o <= a <= g < a + s && (a - o) % s == 0 && (g - o) % s == 0
    ensures a == g
  {
    var x := AlignedFactor(a - o, s);
    var y := AlignedFactor(g - o, s);
    assert y * s < (x + 1) * s;
    MultiplesOrdered(y, x + 1, s);
    MulMonotone(s, y, x);
  }

  lemma CoveringBlock(p: Pool, x: nat) returns (b: Block)
    requires Invariant(p) && p.start <= x < p.End()
    ensures b in FreeBlocks(p.lists) + LiveBlocks(p.live) && b.Has(x)
  {
    assert Covered(FreeBlocks(p.lists) + LiveBlocks(p.live), x);
    b :| b in FreeBlocks(p.lists) + LiveBlocks(p.live) && b.Has(x);
  }

  lemma LiveOnGrid(p: Pool, b: Block, n: nat)
    requires GridPool(p, p.start, n) && b in LiveBlocks(p.live) && b.order <= n
    ensures p.start <= b.addr && (b.addr - p.start) % Size(b.order) == 0
  {
    hide Size;
    assert OnGrid(b, p.start, n);
  }

  /** Once order m is drained every grid point with room for a block of order m has one that is live,
      unless a live block of another order covers it. */
  lemma GridPointLive(p: Pool, g: nat, m: nat, n: nat)
    requires Invariant(p) && GridPool(p, p.start, n) && TailFree(p, m) && m <= n
    requires |p.lists| == MAX_ORDER + 1 && forall j :: m <= j <= MAX_ORDER ==> p.lists[j] == []
    requires p.start <= g && (g - p.start) % Size(m) == 0 && g + Size(m) <= p.End()
    requires forall c :: c in LiveBlocks(p.live) && c.Has(g) ==> c.order == m
    ensures g in p.live && p.live[g] == m
  {
    hide Invariant, Size, GridPool;
    var b := CoveringBlock(p, g);
    assert b in FreeBlocks(p.lists) ==> b.order < m;
    assert b in LiveBlocks(p.live);
    LiveOnGrid(p, b, n);
    SameGridPoint(b.addr, g, p.start, Size(m));
  }

  // ----- Releases that do not merge -----

  /** With the buddy unlisted the block goes to the front of its list and nothing else moves. */
  lemma ReleaseAlone(start: nat, size: nat, p: Pool, a: nat) returns (q: Pool)
    requires Usable(start, size) && Reachable(start, size, p) && Invariant(p) && Shaped(p) && a in p.live
    requires p.live[a] < MAX_ORDER ==> Block(a, p.live[a]).Buddy().addr !in p.lists[p.live[a]]
    ensures q == p.(lists := Push(p.lists, Block(a, p.live[a])), live := p.live - {a})
    ensures Reachable(start, size, q) && Invariant(q) && Shaped(q)
  {
    CoalesceStops(p.lists, Block(a, p.live[a]));
    StepReachable(start, size, p, Release(a));
    q := Free(p, a);
    ReachableSound(start, size, q);
  }

  // ----- The condition is necessary: a state in which a request fails -----

  /** The highest order to which the start is aligned. */
  lemma {:induction false} AlignmentEnds(start: nat, k: nat) returns (n: nat)
    requires start % Size(0) == 0 && start % Size(k) != 0
    ensures n < k && start % Size(n) == 0 && start % Size(n + 1) != 0
  {
    if start % Size(k - 1) == 0 {
      n := k - 1;
    } else {
      n := AlignmentEnds(start, k - 1);
    }
  }

  /** With the start an odd multiple of h, blocks of twice that size straddle the multiples of 4h. */
  lemma Straddle(start: nat, r: nat, h: nat)
    requires h > 0 && start % h == 0 && start % (2 * h) != 0 && r % (4 * h) == 0 && start <= r
    ensures start + h <= r && (r - h - start) % (2 * h) == 0
    ensures (r + h - start) % (2 * h) == 0 && (r + 3 * h - start) % (2 * h) == 0
    ensures (r - h) / (2 * h) % 2 == 1
  {
    var s := OddFactor(start, h);
    var v := AlignedFactor(r, 4 * h);
    OddBelow(s, v, h);
    var t := OddRest(s, v);
    StraddleFactors(start, r, h, s, v, t);
  }

  lemma OddFactor(a: nat, h: nat) returns (s: nat)
    requires h > 0 && a % h == 0 && a % (2 * h) != 0
    ensures a == s * h && s % 2 == 1
  {
    s := AlignedFactor(a, h);
    AlignedTwice(a, h);
  }

  lemma OddRest(s: nat, v: nat) returns (t: nat)
    requires s % 2 == 1 && s + 1 <= 4 * v
    ensures 4 * v == s + 1 + 2 * t
  {
    t := (4 * v - s - 1) / 2;
  }

  lemma OddBelow(s: nat, v: nat, h: nat)
    requires h > 0 && s % 2 == 1 && s * h <= v * (4 * h)
    ensures s + 1 <= 4 * v
  {
    assert v * (4 * h) < (4 * v + 1) * h;
    MultiplesOrdered(s, 4 * v + 1, h);
  }

  lemma StraddleFactors(start: nat, r: nat, h: nat, s: nat, v: nat, t: nat)
    requires h > 0 && start == s * h && r == v * (4 * h) && 4 * v == s + 1 + 2 * t
    ensures start + h <= r && (r - h - start) % (2 * h) == 0
    ensures (r + h - start) % (2 * h) == 0 && (r + 3 * h - start) % (2 * h) == 0
    ensures (r - h) / (2 * h) % 2 == 1
  {
    var w := 2 * h;
    OddMultiple(r, h, s, v, t, w);
    FactorAligned(r - h - start, w, t);
    StraddleAbove(r - h - start, w, t);
    StraddleParity(r, h, v);
  }

  lemma OddMultiple(r: nat, h: nat, s: nat, v: nat, t: nat, w: nat)
    requires r == v * (4 * h) && 4 * v == s + 1 + 2 * t && w == 2 * h
    ensures r == s * h + h + t * w
  {
    calc {
      v * (4 * h);
      (4 * v) * h;
      (s + 1 + 2 * t) * h;
      s * h + h + (2 * t) * h;
      s * h + h + t * (2 * h);
    }
  }

  lemma StraddleAbove(d: nat, w: nat, t: nat)
    requires w > 0 && d == t * w
    ensures (d + w) % w == 0 && (d + 2 * w) % w == 0
  {
    assert d + w == (t + 1) * w && d + 2 * w == (t + 2) * w;
    FactorAligned(d + w, w, t + 1);
    FactorAligned(d + 2 * w, w, t + 2);
  }

  lemma StraddleParity(r: nat, h: nat, v: nat)
    requires h > 0 && v > 0 && r == v * (4 * h)
    ensures h <= r && (r - h) / (2 * h) % 2 == 1
  {
    assert r - h == (2 * v - 1) * (2 * h) + h;
    QuotientUnique(r - h, 2 * h, 2 * v - 1, h);
  }

  /** Releasing the two blocks around r leaves the run at r unused and no block to serve it with. */
  lemma ReleaseBoth(start: nat, size: nat, p: Pool, low: nat, high: nat, b: Block) returns (q: Pool)
    requires Usable(start, size) && Reachable(start, size, p) && Invariant(p) && Shaped(p) && low != high
    requires 0 < b.order <= MAX_ORDER && b.Dyadic() && start <= b.addr && b.End() <= p.End()
    requires low in p.live && high in p.live && p.live[low] == b.order - 1 && p.live[high] == b.order - 1
    requires forall j :: b.order - 1 <= j <= MAX_ORDER ==> p.lists[j] == []
    requires Block(low, b.order - 1).Buddy().addr != high
    requires forall c :: c in LiveBlocks(p.live) && c.addr != low && c.addr != high ==> c.Apart(b)
    ensures Reachable(start, size, q) && Fails(q, Size(b.order))
  {
    hide Reachable, Invariant, Shaped, Xor, Usable, Unused, Allocate;
    ReachableSound(start, size, p);
    var q' := ReleaseAlone(start, size, p, high);
    q := ReleaseAlone(start, size, q', low);
    ReachableSound(start, size, q);
    UnusedAfter(p, q, low, high, b);
    NothingAbove(q, b);
  }

  lemma UnusedAfter(p: Pool, q: Pool, low: nat, high: nat, b: Block)
    requires q.start == p.start && q.size == p.size && q.live == p.live - {high} - {low}
    requires p.start <= b.addr && b.End() <= p.End()
    requires forall c :: c in LiveBlocks(p.live) && c.addr != low && c.addr != high ==> c.Apart(b)
    ensures Unused(b, q.start, q.End(), q.live)
  {
    assert forall c :: c in LiveBlocks(q.live) ==> c in LiveBlocks(p.live) && c.addr != low && c.addr != high;
  }

  lemma NothingAbove(q: Pool, b: Block)
    requires Invariant(q) && Shaped(q) && b.order <= MAX_ORDER && b.Dyadic() && Unused(b, q.start, q.End(), q.live)
    requires forall j :: b.order <= j <= MAX_ORDER ==> q.lists[j] == []
    ensures Fails(q, Size(b.order))
  {
    OrderOfSize(b.order);
    AllocateKeeps(q, Size(b.order));
  }

  /** A block of order n + 1 at g gives way to its two halves, and the lower one is released. */
  lemma ReleaseHalf(start: nat, size: nat, p: Pool, g: nat, n: nat) returns (q: Pool)
    requires Usable(start, size) && Reachable(start, size, p) && Invariant(p) && Shaped(p) && n < MAX_ORDER
    requires GridPool(p, start, n + 1) && TailFree(p, n) && forall j :: n < j <= MAX_ORDER ==> p.lists[j] == []
    requires g in p.live && p.live[g] == n + 1 && start <= g && (g - start) % Size(n) == 0
    ensures Reachable(start, size, q) && Invariant(q) && Shaped(q) && Block(g, n) in FreeBlocks(q.lists)
    ensures forall j :: n < j <= MAX_ORDER ==> q.lists[j] == []
    ensures forall a :: a in p.live && a != g ==> a in q.live && q.live[a] == p.live[a]
  {
    hide Reachable, Invariant, Shaped, Xor, Usable, TailFree, GridPool;
    ReachableSound(start, size, p);
    var p' := ReleaseAlone(start, size, p, g);
    ReleasedOnGrid(p, p', g, n + 1);
    var d := Drain(start, size, p', n, n + 1);
    ReachableSound(start, size, d);
    HalfLive(p, p', d, g, n);
    q := ReleaseAlone(start, size, d, g);
  }

  lemma ReleasedOnGrid(p: Pool, q: Pool, a: nat, n: nat)
    requires Shaped(p) && GridPool(p, p.start, n) && a in p.live
    requires q == p.(lists := Push(p.lists, Block(a, p.live[a])), live := p.live - {a})
    ensures GridPool(q, p.start, n)
  {
    var b := Block(a, p.live[a]);
    assert b in LiveBlocks(p.live);
    PushBlocks(p.lists, b);
    LiveBlocksDrop(p.live, a);
  }

  lemma HalfLive(p: Pool, p': Pool, d: Pool, g: nat, n: nat)
    requires Invariant(p) && Shaped(p) && Invariant(d) && n < MAX_ORDER && d.start == p.start && d.size == p.size
    requires g in p.live && p.live[g] == n + 1 && p'.live == p.live - {g}
    requires |p'.lists| == MAX_ORDER + 1 && forall j :: 0 <= j < n ==> p'.lists[j] == p.lists[j]
    requires Drained(p', d, n) && GridPool(d, p.start, n + 1) && TailFree(p, n)
    requires p.start <= g && (g - p.start) % Size(n) == 0
    ensures g in d.live && d.live[g] == n
  {
    hide GridPool, TailFree, Invariant;
    HalfFits(p, g, n);
    forall c | c in LiveBlocks(d.live) && c.Has(g)
      ensures c.order == n
    {
      if c.addr in p'.live {
        OnlyReleased(p, c, g, n);
        assert false;
      }
    }
    TailFreeKept(p, d, n);
    GridPointLive(d, g, n, n + 1);
  }

  lemma HalfFits(p: Pool, g: nat, n: nat)
    requires Invariant(p) && g in p.live && p.live[g] == n + 1
    ensures g + Size(n) <= p.End()
  {
    var b := Block(g, n + 1);
    assert b in LiveBlocks(p.live);
    assert Inside(b, p.start, p.End());
    SizeMonotone(n, n + 1);
  }

  /** A block that was live all along does not hold the address of another that was. */
  lemma OnlyReleased(p: Pool, c: Block, g: nat, n: nat)
    requires Invariant(p) && g in p.live && p.live[g] == n + 1
    requires c.addr in p.live && c.order == p.live[c.addr] && c.Has(g)
    ensures c.addr == g
  {
    var b := Block(g, n + 1);
    assert b in LiveBlocks(p.live) && c in LiveBlocks(p.live);
    SameBlock(FreeBlocks(p.lists) + LiveBlocks(p.live), b, c, g, p.start, p.End());
  }

  /** The two straddling blocks and the rest leave no other live block in the run: the rest is free,
      or too near the end of the pool to start a live block. */
  lemma OthersApart(p: Pool, low: Block, high: Block, b: Block, rest: Block)
    requires Invariant(p) && low in LiveBlocks(p.live) && high in LiveBlocks(p.live)
    requires low.addr <= b.addr && low.End() == high.addr && high.End() == rest.addr && b.End() == rest.End()
    requires rest in FreeBlocks(p.lists) || forall c :: c in LiveBlocks(p.live) ==> p.End() < rest.addr + Size(c.order)
    ensures forall c :: c in LiveBlocks(p.live) && c != low && c != high ==> c.Apart(b)
  {
    var all := FreeBlocks(p.lists) + LiveBlocks(p.live);
    forall c | c in LiveBlocks(p.live) && c != low && c != high
      ensures c.Apart(b)
    {
      assert low.Apart(c) && high.Apart(c) && Inside(c, p.start, p.End());
      assert rest in FreeBlocks(p.lists) ==> rest.Apart(c);
    }
  }

  /** Everything drained on the pool's own grid: order n + 1 is live wherever it fits. */
  lemma DrainFresh(start: nat, size: nat, n: nat) returns (p: Pool)
    requires Usable(start, size) && n < MAX_ORDER
    ensures Reachable(start, size, p) && Invariant(p) && Shaped(p) && p.start == start && p.size == size
    ensures GridPool(p, start, n + 1) && TailFree(p, n) && TailFree(p, n + 1)
    ensures (forall j :: n < j <= MAX_ORDER ==> p.lists[j] == []) && forall a :: a in p.live ==> p.live[a] == n + 1
  {
    hide Reachable, Invariant, TailFree, GridPool, Usable, Xor;
    var init := Init(start, size);
    InitReachable(start, size);
    InitOnOwnGrid(start, size, n + 1);
    InitTailFree(start, size, n);
    InitTailFree(start, size, n + 1);
    p := Drain(start, size, init, n + 1, n + 1);
    ReachableSound(start, size, init);
    ReachableSound(start, size, p);
    TailFreeKept(init, p, n);
    TailFreeKept(init, p, n + 1);
  }

  lemma FreshLive(p: Pool, g: nat, n: nat)
    requires Invariant(p) && GridPool(p, p.start, n + 1) && TailFree(p, n + 1) && |p.lists| == MAX_ORDER + 1
    requires forall j :: n < j <= MAX_ORDER ==> p.lists[j] == []
    requires forall a :: a in p.live ==> p.live[a] == n + 1
    requires p.start <= g && (g - p.start) % Size(n + 1) == 0 && g + Size(n + 1) <= p.End()
    ensures g in p.live && p.live[g] == n + 1
  {
    GridPointLive(p, g, n + 1, n + 1);
  }

  lemma BuddyBelow(a: nat, k: nat, c: nat)
    requires a / Size(k) % 2 == 1 && a < c
    ensures Block(a, k).Buddy().addr != c
  {
    BuddyFlips(Block(a, k));
  }

  /** Two live blocks of order n + 1 straddle the aligned run of order n + 2 at r, and nothing else live is in it. */
  ghost predicate Straddled(p: Pool, r: nat, n: nat) {
    && Size(n) <= r && Shaped(p) && n + 2 <= MAX_ORDER && p.start <= r && r + Size(n + 2) <= p.End()
    && r - Size(n) in p.live && p.live[r - Size(n)] == n + 1
    && r + Size(n) in p.live && p.live[r + Size(n)] == n + 1
    && (forall j :: n < j <= MAX_ORDER ==> p.lists[j] == [])
    && (forall c :: c in LiveBlocks(p.live) && c.addr != r - Size(n) && c.addr != r + Size(n)
                    ==> c.Apart(Block(r, n + 2)))
  }

  lemma StraddledState(p: Pool, r: nat, n: nat, h: nat)
    requires Invariant(p) && Shaped(p) && n + 2 <= MAX_ORDER && h == Size(n) && h <= r
    requires p.start <= r && r + 4 * h <= p.End() && forall j :: n < j <= MAX_ORDER ==> p.lists[j] == []
    requires r - h in p.live && p.live[r - h] == n + 1 && r + h in p.live && p.live[r + h] == n + 1
    requires Block(r + 3 * h, n) in FreeBlocks(p.lists)
             || (p.End() < r + 5 * h && forall a :: a in p.live ==> p.live[a] == n + 1)
    ensures Straddled(p, r, n)
  {
    var low, high := Block(r - h, n + 1), Block(r + h, n + 1);
    var b, rest := Block(r, n + 2), Block(r + 3 * h, n);
    assert Size(n + 1) == 2 * h && Size(n + 2) == 4 * h;
    assert low in LiveBlocks(p.live) && high in LiveBlocks(p.live);
    OthersApart(p, low, high, b, rest);
  }

  lemma StraddledFails(start: nat, size: nat, p: Pool, r: nat, n: nat, h: nat) returns (q: Pool)
    requires Usable(start, size) && Reachable(start, size, p) && Invariant(p) && Straddled(p, r, n)
    requires p.start == start && h == Size(n) && Block(r, n + 2).Dyadic()
    requires Block(r - h, n + 1).Buddy().addr != r + h
    ensures Reachable(start, size, q) && Fails(q, Size(n + 2))
  {
    hide Invariant, Reachable, Fails, Xor, Size, Usable, Block.Dyadic, Block.Apart;
    q := ReleaseBoth(start, size, p, r - h, r + h, Block(r, n + 2));
  }

  lemma PageAligned(start: nat, size: nat)
    requires Usable(start, size)
    ensures start % Size(0) == 0
  {
  }

  lemma RunInside(b: Block, n: nat)
    requires b.Dyadic() && n + 2 <= b.order
    ensures Size(n + 2) == 4 * Size(n) && Size(n + 1) == 2 * Size(n)
    ensures b.addr % (4 * Size(n)) == 0 && Block(b.addr, n + 2).Dyadic() && b.addr + 4 * Size(n) <= b.End()
  {
    assert Size(n + 2) == 2 * Size(n + 1);
    AlignedDown(b.addr, n + 2, b.order);
    SizeMonotone(n + 2, b.order);
  }

  lemma ReachStraddled(start: nat, size: nat, r: nat, n: nat, h: nat) returns (p: Pool)
    requires Usable(start, size) && n + 2 <= MAX_ORDER && h == Size(n) && Size(n + 1) == 2 * h
    requires start + h <= r && r + 4 * h <= start + (size - size % PAGE_SIZE)
    requires (r - h - start) % Size(n + 1) == 0 && (r + h - start) % Size(n + 1) == 0
    requires (r + 3 * h - start) % Size(n + 1) == 0 && (r + 3 * h - start) % h == 0
    ensures Reachable(start, size, p) && Invariant(p) && p.start == start && Straddled(p, r, n)
  {
    hide Xor, Reachable, Invariant, Usable, TailFree, GridPool, Straddled;
    p := DrainFresh(start, size, n);
    FreshLive(p, r - h, n);
    FreshLive(p, r + h, n);
    if r + 5 * h <= p.End() {
      FreshLive(p, r + 3 * h, n);
      p := ReleaseHalf(start, size, p, r + 3 * h, n);
      ReachableSound(start, size, p);
    }
    StraddledState(p, r, n, h);
  }

  /** A start that is not aligned to order k - 1, with room for an aligned run of order k, has a reachable
      state in which an aligned run is unused and the request for it fails. */
  lemma CoarseStartFails(start: nat, size: nat, b: Block) returns (q: Pool, request: nat)
    requires Usable(start, size) && 0 < b.order <= MAX_ORDER && b.Dyadic()
    requires start <= b.addr && b.End() <= start + (size - size % PAGE_SIZE) && start % Size(b.order - 1) != 0
    ensures Reachable(start, size, q) && Fails(q, request)
  {
    hide Xor, Reachable, Invariant, Usable, Fails, Straddled, Block.Dyadic;
    PageAligned(start, size);
    var n := AlignmentEnds(start, b.order - 1);
    var h, r := Size(n), b.addr;
    RunInside(b, n);
    Straddle(start, r, h);
    TwiceDown(r + 3 * h - start, h);
    BuddyBelow(r - h, n + 1, r + h);
    var p := ReachStraddled(start, size, r, n, h);
    request := Size(n + 2);
    q := StraddledFails(start, size, p, r, n, h);
  }

  /** Exactly the pools with a fine start let a request fail only when no aligned run of its order is unused. */
  lemma CompleteIff(start: nat, size: nat)
    requires Usable(start, size)
    ensures Complete(start, size) <==> FineStart(start, size)
  {
    if FineStart(start, size) {
      forall p, request: nat | Reachable(start, size, p)
        ensures !Fails(p, request)
      {
        FineStartComplete(start, size, p, request);
      }
    }
    if Complete(start, size) {
      forall b: Block | 0 < b.order <= MAX_ORDER && b.Dyadic() && start <= b.addr
                        && b.End() <= start + (size - size % PAGE_SIZE)
        ensures start % Size(b.order - 1) == 0
      {
        if start % Size(b.order - 1) != 0 {
          var q, request := CoarseStartFails(start, size, b);
          assert false;
        }
      }
    }
  }

  /** The least multiple of s from a on. */
  function RoundUp(a: nat, s: nat): nat
    requires s > 0
  {
    (a + (s - 1)) / s * s
  }

  lemma RoundUpLeast(a: nat, s: nat, m: nat)
    requires s > 0
    ensures a <= RoundUp(a, s) && RoundUp(a, s) % s == 0
    ensures a <= m && m % s == 0 ==> RoundUp(a, s) <= m
  {
    var b := a + (s - 1);
    var q := b / s;
    assert b == q * s + b % s;
    FactorAligned(q * s, s, q);
    if a <= m && m % s == 0 {
      var n := AlignedFactor(m, s);
      assert q * s < (n + 1) * s;
      MultiplesOrdered(q, n + 1, s);
      MulMonotone(s, q, n);
    }
  }

  /** What to test before handing the pool over: one comparison per order. */
  predicate FineCheck(start: nat, size: nat) {
    forall k :: 0 < k <= MAX_ORDER && RoundUp(start, Size(k)) + Size(k) <= start + (size - size % PAGE_SIZE)
                ==> start % Size(k - 1) == 0
  }

  lemma FineCheckDecides(start: nat, size: nat)
    ensures FineCheck(start, size) <==> FineStart(start, size)
  {
    if FineStart(start, size) {
      forall k | 0 < k <= MAX_ORDER && RoundUp(start, Size(k)) + Size(k) <= start + (size - size % PAGE_SIZE)
        ensures start % Size(k - 1) == 0
      {
        RoundUpLeast(start, Size(k), 0);
        assert Block(RoundUp(start, Size(k)), k).Dyadic();
      }
    }
    if FineCheck(start, size) {
      forall b: Block | 0 < b.order <= MAX_ORDER && b.Dyadic() && start <= b.addr
                        && b.End() <= start + (size - size % PAGE_SIZE)
        ensures start % Size(b.order - 1) == 0
      {
        RoundUpLeast(start, Size(b.order), b.addr);
      }
    }
  }

  /** Natural alignment of the largest fitting block is more than needed. */
  lemma AlignedStartIsFine(start: nat, size: nat)
    requires AlignedStart(start, size)
    ensures FineStart(start, size)
  {
    forall b: Block | 0 < b.order <= MAX_ORDER && b.Dyadic() && start <= b.addr
                      && b.End() <= start + (size - size % PAGE_SIZE)
      ensures start % Size(b.order - 1) == 0
    {
      var f := LargestFit(size);
      if f < b.order {
        SizeMonotone(f + 1, b.order);
        assert false;
      }
      AlignedDown(start, b.order - 1, f);
    }
  }

  /** Two pages from page 1 on hold no aligned pair of pages, so nothing is missed there. */
  lemma FineStartNeedNotBeAligned()
    ensures FineStart(4096, 8192) && !AlignedStart(4096, 8192)
  {
    SmallSizes();
    FitUnique(8192, LargestFit(8192), 1);
    forall b: Block | 0 < b.order <= MAX_ORDER && b.Dyadic() && 4096 <= b.addr
      ensures b.End() > 4096 + 8192
    {
      SizeMonotone(1, b.order);
      if b.addr < Size(b.order) {
        QuotientUnique(b.addr, Size(b.order), 0, b.addr);
        assert false;
      }
    }
  }

  // ----- A state in which the largest block at the start is all there is -----

  /** Only the block of order f at the start of the pool is free. */
  ghost predicate Lone(p: Pool, f: nat) {
    Shaped(p) && forall j :: 0 <= j <= MAX_ORDER ==> p.lists[j] == if j == f then [p.start] else []
  }

  /** A request of the order of the first non-empty list takes its head whole. */
  lemma TakeWhole(start: nat, size: nat, p: Pool, b: Block) returns (q: Pool)
    requires Usable(start, size) && Reachable(start, size, p) && Invariant(p) && Shaped(p)
    requires FirstFit(p.lists, 0) <= MAX_ORDER && b in FreeBlocks(p.lists) + LiveBlocks(p.live)
    ensures Reachable(start, size, q) && Invariant(q) && Shaped(q)
    ensures b in FreeBlocks(q.lists) + LiveBlocks(q.live) && FreeTotal(q.lists) < FreeTotal(p.lists)
  {
    hide Reachable, Invariant, Usable, Allocate, SplitLists, Shaped;
    var i := FirstFit(p.lists, 0);
    OrderOfSize(i);
    AllocateTotal(p, Size(i));
    AllocateKeeps(p, Size(i));
    AllocateGrants(p, Size(i));
    StepReachable(start, size, p, Alloc(Size(i)));
    q := Allocate(p, Size(i)).0;
    ReachableSound(start, size, q);
    WholeHead(p, q, q.live, i, b);
  }

  lemma WholeHead(p: Pool, q: Pool, live: map<nat, nat>, i: nat, b: Block)
    requires i < |p.lists| && p.lists[i] != [] && p.lists[i][0] !in p.live
    requires |q.lists| == |p.lists| && q.lists[i] == p.lists[i][1..] && live == p.live[p.lists[i][0] := i]
    requires forall j :: 0 <= j < |p.lists| && j != i ==> q.lists[j] == p.lists[j]
    requires b in FreeBlocks(p.lists) + LiveBlocks(p.live)
    ensures b in FreeBlocks(q.lists) + LiveBlocks(live)
  {
    LiveBlocksAdd(p.live, p.lists[i][0], i);
    if b in FreeBlocks(p.lists) {
      assert b.addr == p.lists[b.order][0] || b.addr in p.lists[b.order][1..];
    }
  }

  lemma ReachLone(start: nat, size: nat) returns (p: Pool)
    requires Usable(start, size) && size >= PAGE_SIZE
    ensures Reachable(start, size, p) && Invariant(p) && p.start == start && p.size == size
    ensures Lone(p, LargestFit(size))
  {
    var b := Block(start, LargestFit(size));
    p := Init(start, size);
    InitReachable(start, size);
    ReachableSound(start, size, p);
    FirstBlockFree(start, size);
    while FirstFit(p.lists, 0) <= MAX_ORDER
      invariant Reachable(start, size, p) && Invariant(p) && Shaped(p)
      invariant b in FreeBlocks(p.lists) + LiveBlocks(p.live)
      decreases FreeTotal(p.lists)
    {
      p := TakeWhole(start, size, p, b);
    }
    assert b in LiveBlocks(p.live);
    p := ReleaseAlone(start, size, p, start);
    ReachableSound(start, size, p);
  }

  // ----- Both directions -----

  /** A request fails if and only if no aligned run of its order is unused, in every reachable state. */
  ghost predicate Exact(start: nat, size: nat) {
    forall p, request: nat :: Reachable(start, size, p) ==> ExactFor(p, request)
  }

  ghost predicate ExactFor(p: Pool, request: nat) {
    && Shaped(p)
    && (Allocate(p, request).1 == 0 <==>
        !exists b: Block :: b.order == OrderFor(request) && b.Dyadic() && Unused(b, p.start, p.End(), p.live))
  }

  lemma LoneBlock(p: Pool, f: nat)
    requires f <= MAX_ORDER && Lone(p, f)
    ensures forall c :: c in FreeBlocks(p.lists) ==> c == Block(p.start, f)
  {
  }

  /** The only run of its order that is unused is the block itself. */
  lemma LoneRun(p: Pool, f: nat, b: Block)
    requires Invariant(p) && f <= MAX_ORDER && Lone(p, f) && b.order == f && Unused(b, p.start, p.End(), p.live)
    ensures b == Block(p.start, f)
  {
    var first := UnusedByteIsFree(p, b, b.addr);
    var last := UnusedByteIsFree(p, b, b.End() - 1);
    LoneBlock(p, f);
    hide Invariant, Lone, Unused, Size;
    assert first == last == Block(p.start, f);
  }

  lemma LoneServes(p: Pool, f: nat)
    requires Invariant(p) && f <= MAX_ORDER && Lone(p, f)
    ensures OrderFor(Size(f)) == f && Allocate(p, Size(f)).1 != 0
  {
    OrderOfSize(f);
    AllocateKeeps(p, Size(f));
    hide Invariant, Allocate;
    assert p.lists[f] != [];
  }

  lemma LoneNotExact(p: Pool, f: nat)
    requires Invariant(p) && f <= MAX_ORDER && Lone(p, f) && ExactFor(p, Size(f))
    ensures p.start % Size(f) == 0
  {
    hide Invariant, Allocate, Size, OrderFor, Lone, Unused;
    LoneServes(p, f);
    var b: Block :| b.order == f && b.Dyadic() && Unused(b, p.start, p.End(), p.live);
    LoneRun(p, f, b);
  }

  lemma ExactIffAligned(start: nat, size: nat)
    requires Usable(start, size)
    ensures Exact(start, size) <==> AlignedStart(start, size)
  {
    if AlignedStart(start, size) {
      forall p, request: nat | Reachable(start, size, p)
        ensures ExactFor(p, request)
      {
        ReachableSound(start, size, p);
        var es :| CanRun(Init(start, size), es) && p == Run(Init(start, size), es);
        ReachableDyadic(start, size, es);
        AllocationComplete(p, request);
      }
    }
    if Exact(start, size) && size >= PAGE_SIZE {
      var p := ReachLone(start, size);
      LoneNotExact(p, LargestFit(size));
    }
  }

  /** In every reachable state releasing a block right after it was handed out restores the lists, in order. */
  ghost predicate UndoesRequests(start: nat, size: nat) {
    forall p, request: nat :: Reachable(start, size, p) ==> Undone(p, request)
  }

  ghost predicate Undone(p: Pool, request: nat) {
    Shaped(p) && var (q, a) := Allocate(p, request);
    a != 0 ==> Shaped(q) && a in q.live && Free(q, a).lists == p.lists && Free(q, a).live == p.live
  }

  lemma {:induction false} SplitAlignedDyadic(a: nat, k: nat)
    requires a % Size(0) == 0 && SplitAligned(a, 0, k)
    ensures a % Size(k) == 0
  {
    if k > 0 {
      SplitAlignedDyadic(a, k - 1);
      assert a / Size(k - 1) % 2 == 0;
      TwiceUp(a, Size(k - 1));
    }
  }

  lemma LoneNotUndone(p: Pool, f: nat)
    requires Invariant(p) && f <= MAX_ORDER && Lone(p, f) && Undone(p, 1)
    ensures p.start % Size(f) == 0
  {
    OnePageOrder();
    AllocateKeeps(p, 1);
    assert p.lists[f] != [] && p.lists[f][0] == p.start;
    assert FirstFit(p.lists, 0) == f;
    FreeUndoesAllocateIff(p, 1);
    PageAligned(p.start, p.size);
    SplitAlignedDyadic(p.start, f);
  }

  lemma UndoesIffAligned(start: nat, size: nat)
    requires Usable(start, size)
    ensures UndoesRequests(start, size) <==> AlignedStart(start, size)
  {
    if AlignedStart(start, size) {
      forall p, request: nat | Reachable(start, size, p)
        ensures Undone(p, request)
      {
        ReachableSound(start, size, p);
        var es :| CanRun(Init(start, size), es) && p == Run(Init(start, size), es);
        ReachableDyadic(start, size, es);
        if Allocate(p, request).1 != 0 {
          FreeUndoesAllocate(p, request);
        }
      }
    }
    if UndoesRequests(start, size) && size >= PAGE_SIZE {
      var p := ReachLone(start, size);
      LoneNotUndone(p, LargestFit(size));
    }
  }
}
