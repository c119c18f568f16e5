/** The physical memory manager: scan the memory map, hand the first usable region to the allocator. */
module Pmm {
  import opened Bits
  import opened Blocks
  import opened BuddyModel
  import opened BuddyInvariant
  import opened BuddyInit
  import opened BuddyTheorems
  import opened BuddyLinks
  import opened BuddyAllocators

  /** Region types are numbers; USABLE is the boot protocol's code for free memory. */
  const USABLE: nat := 0

  datatype Region = Region(base: nat, length: nat, kind: nat) {
    predicate Apart(r: Region) {
      base + length <= r.base || r.base + r.length <= base
    }
  }

  /** Index of the first usable region, |map| if there is none. */
  function FirstUsable(regions: seq<Region>): (i: nat)
    ensures i <= |regions|
    ensures forall j :: 0 <= j < i ==> regions[j].kind != USABLE
    ensures i < |regions| ==> regions[i].kind == USABLE
  {
    if regions == [] || regions[0].kind == USABLE then 0 else 1 + FirstUsable(regions[1..])
  }

  /** The range handed to the allocator, as physical addresses; empty at 0 without a usable region. */
  function Handed(regions: seq<Region>): (r: Region) {
    var i := FirstUsable(regions);
    if i < |regions| then regions[i] else Region(0, 0, USABLE)
  }

  /** Sum of the lengths of the chosen regions, as a 64-bit counter. */
  function TotalLength(regions: seq<Region>, usableOnly: bool): nat {
    if regions == [] then 0
    else
      var n := |regions| - 1;
      (TotalLength(regions[..n], usableOnly)
       + if usableOnly && regions[n].kind != USABLE then 0 else regions[n].length) % WORD
  }

  /** The least page boundary from x on. */
  function PageUp(x: nat): (r: nat)
    ensures r % PAGE_SIZE == 0 && x <= r < x + PAGE_SIZE
  {
    (x + PAGE_SIZE - 1) / PAGE_SIZE * PAGE_SIZE
  }

  // ----- What the totals count -----

  /** A region's share of the total of all memory is its length, of usable memory only if it is usable. */
  lemma OneRegionTotal(r: Region)
    ensures TotalLength([r], false) == r.length % WORD
    ensures TotalLength([r], true) == if r.kind == USABLE then r.length % WORD else 0
  {
    assert [r][..0] == [];
  }

  function Share(r: Region, usableOnly: bool): nat {
    if usableOnly && r.kind != USABLE then 0 else r.length
  }

  lemma TotalOneMore(rs: seq<Region>, r: Region, usableOnly: bool)
    ensures TotalLength(rs + [r], usableOnly) == (TotalLength(rs, usableOnly) + Share(r, usableOnly)) % WORD
  {
    assert (rs + [r])[..|rs|] == rs;
  }

  /** The shares of the regions add up, as words. */
  lemma {:induction false} TotalsAdd(rs: seq<Region>, ts: seq<Region>, usableOnly: bool)
    ensures TotalLength(rs + ts, usableOnly)
            == (TotalLength(rs, usableOnly) + TotalLength(ts, usableOnly)) % WORD
    decreases |ts|
  {
    if ts == [] {
      assert rs + ts == rs;
      TotalIsWord(rs, usableOnly);
    } else {
      hide TotalLength, Share;
      var n := |ts| - 1;
      var t := ts[n];
      assert ts == ts[..n] + [t] && rs + ts == rs + ts[..n] + [t];
      TotalsAdd(rs, ts[..n], usableOnly);
      TotalOneMore(rs + ts[..n], t, usableOnly);
      TotalOneMore(ts[..n], t, usableOnly);
      AddWords(TotalLength(rs, usableOnly), TotalLength(ts[..n], usableOnly), Share(t, usableOnly));
    }
  }

  lemma TotalIsWord(rs: seq<Region>, usableOnly: bool)
    ensures TotalLength(rs, usableOnly) < WORD
  {
  }

  lemma AddWords(a: nat, b: nat, c: nat)
    ensures ((a + b) % WORD + c) % WORD == (a + (b + c) % WORD) % WORD
  {
  }

  /** The two totals agree on maps of usable regions only, and nothing is usable in a map without one. */
  lemma {:induction false} UsableShare(rs: seq<Region>)
    ensures (forall r :: r in rs ==> r.kind == USABLE) ==> TotalLength(rs, true) == TotalLength(rs, false)
    ensures (forall r :: r in rs ==> r.kind != USABLE) ==> TotalLength(rs, true) == 0
  {
    if rs != [] {
      UsableShare(rs[..|rs| - 1]);
      assert forall r :: r in rs[..|rs| - 1] ==> r in rs;
      assert rs[|rs| - 1] in rs;
    }
  }

  lemma {:induction false} FirstUsableFound(regions: seq<Region>, i: nat)
    requires i <= |regions| && forall j :: 0 <= j < i ==> regions[j].kind != USABLE
    requires i < |regions| ==> regions[i].kind == USABLE
    ensures FirstUsable(regions) == i
  {
    if i > 0 {
      FirstUsableFound(regions[1..], i - 1);
    }
  }

  /** The bytes of b, seen as a physical region. */
  function Physical(b: Block, offset: nat): Region
    requires offset <= b.addr
  {
    Region(b.addr - offset, Size(b.order), USABLE)
  }

  /** b lies in the handed-over region, and so overlaps no region which that one does not overlap. */
  ghost predicate Confined(regions: seq<Region>, offset: nat, b: Block) {
    var h := Handed(regions);
    && h.base + offset <= b.addr && b.End() <= h.base + offset + h.length
    && forall r :: r in regions && r.Apart(h) ==> Physical(b, offset).Apart(r)
  }

  lemma InsideConfined(regions: seq<Region>, offset: nat, b: Block)
    requires var h := Handed(regions); h.base + offset <= b.addr && b.End() <= h.base + offset + h.length
    ensures Confined(regions, offset, b)
  {
  }

  /** The allocator's state after a run on the handed-over region. */
  ghost predicate HandedRun(regions: seq<Region>, offset: nat, es: seq<Event>, p: Pool) {
    var h := Handed(regions);
    var start := h.base + offset;
    Usable(start, h.length) && CanRun(Init(start, h.length), es) && p == Run(Init(start, h.length), es)
  }

  lemma HandedInvariant(regions: seq<Region>, offset: nat, es: seq<Event>, p: Pool)
    requires HandedRun(regions, offset, es, p)
    ensures Invariant(p) && p.start == Handed(regions).base + offset && p.size == Handed(regions).length
  {
    var h := Handed(regions);
    ReachableInvariant(h.base + offset, h.length, es);
  }

  /** After any run of requests and releases, every block handed out is confined, and disjoint from the others. */
  lemma LiveBlocksConfined(regions: seq<Region>, offset: nat, es: seq<Event>, p: Pool, b: Block)
    requires HandedRun(regions, offset, es, p) && b in LiveBlocks(p.live)
    ensures Confined(regions, offset, b)
    ensures forall c :: c in LiveBlocks(p.live) && c != b ==> c.Apart(b)
  {
    HandedInvariant(regions, offset, es, p);
    LiveBlocksInside(p, b);
    InsideConfined(regions, offset, b);
  }

  lemma LiveBlocksInside(p: Pool, b: Block)
    requires Invariant(p) && b in LiveBlocks(p.live)
    ensures p.start <= b.addr && b.End() <= p.start + p.size
    ensures forall c :: c in LiveBlocks(p.live) && c != b ==> c.Apart(b)
  {
    assert Inside(b, p.start, p.End());
  }

  /** Without a usable region no request ever succeeds. */
  lemma NoUsableRegion(regions: seq<Region>, offset: nat, es: seq<Event>, p: Pool, size: nat)
    requires FirstUsable(regions) == |regions| && HandedRun(regions, offset, es, p)
    ensures |p.lists| == MAX_ORDER + 1 && Allocate(p, size).1 == 0
  {
    HandedInvariant(regions, offset, es, p);
    AllocateKeeps(p, size);
    if FirstFit(p.lists, OrderFor(size)) <= MAX_ORDER {
      ListedBlockInside(p, size);
      assert false;
    }
  }

  lemma ListedBlockInside(p: Pool, size: nat)
    requires Invariant(p) && FirstFit(p.lists, OrderFor(size)) <= MAX_ORDER
    ensures p.start < p.End()
  {
    var i := FirstFit(p.lists, OrderFor(size));
    var b := Block(p.lists[i][0], i);
    assert b in FreeBlocks(p.lists) && Inside(b, p.start, p.End());
  }

  class PhysicalMemory {
    var totalMemory: nat
    var usableMemory: nat
    var kernelStart: nat
    var kernelEnd: nat
    var buddy: BuddyAllocator?
    ghost var regions: seq<Region>
    ghost var offset: nat

    ghost predicate Valid()
      reads this, buddy, if buddy == null then {} else {buddy.freeLists}
    {
      && buddy != null && buddy.Valid()
      && buddy.pool.start == Handed(regions).base + offset && buddy.pool.size == Handed(regions).length
    }

    /** The manager's own allocator is in the state of a run on the region handed over. */
    lemma OwnRun()
      requires Valid()
      ensures HandedRun(regions, offset, buddy.history, buddy.pool)
    {
      hide Wired, Sound, Coalesced, LiveBlocks, FreeBlocks, Init, CanRun, Run;
    }

    /** So whatever is live at any time is confined to that region, and the live blocks are disjoint. */
    lemma OwnBlocksConfined(b: Block)
      requires Valid() && b in LiveBlocks(buddy.pool.live)
      ensures Confined(regions, offset, b)
      ensures forall c :: c in LiveBlocks(buddy.pool.live) && c != b ==> c.Apart(b)
    {
      OwnRun();
      LiveBlocksConfined(regions, offset, buddy.history, buddy.pool, b);
    }

    /** Every byte of the whole pages of the first usable region is in exactly one block of the allocator. */
    lemma OwnBlocksCover(x: nat) returns (b: Block)
      requires Valid() && FirstUsable(regions) < |regions|
      requires var r := regions[FirstUsable(regions)]; r.base <= x < r.base + (r.length - r.length % PAGE_SIZE)
      ensures b in FreeBlocks(buddy.pool.lists) + LiveBlocks(buddy.pool.live) && b.Has(x + offset)
      ensures forall c :: c in FreeBlocks(buddy.pool.lists) + LiveBlocks(buddy.pool.live) && c.Has(x + offset)
                          ==> c == b
    {
      b := ExactlyOneBlock(buddy.pool, x + offset);
    }

    /** Total the map, round the kernel's end up to a page, and hand the first usable region over. */
    method Initialize(memoryMap: seq<Region>, kernelBase: nat, kernelSize: nat, hhdm: nat, ram: Memory)
      requires var h := Handed(memoryMap);
               && Usable(h.base + hhdm, h.length)
               && HasPages(ram, h.base + hhdm, h.base + hhdm + (h.length - h.length % PAGE_SIZE))
      modifies this
      ensures Valid() && fresh(buddy) && regions == memoryMap && offset == hhdm && buddy.history == []
      ensures totalMemory == TotalLength(memoryMap, false) && usableMemory == TotalLength(memoryMap, true)
      ensures kernelStart == kernelBase && kernelEnd == PageUp(kernelBase + kernelSize) % WORD
    {
      RoundedUp(kernelBase + kernelSize);
      var end := (kernelBase + kernelSize + PAGE_SIZE - 1) % WORD;
      var total, usable := TotalLengths(memoryMap);
      var start, size := FindUsable(memoryMap);
      kernelStart, kernelEnd := kernelBase, end - end % PAGE_SIZE;
      totalMemory, usableMemory := total, usable;
      regions, offset := memoryMap, hhdm;
      buddy := new BuddyAllocator(start + hhdm, size, ram);
    }

    static lemma RoundedUp(x: nat)
      ensures var end := (x + PAGE_SIZE - 1) % WORD; end - end % PAGE_SIZE == PageUp(x) % WORD
    {
      var y := x + PAGE_SIZE - 1;
      var k, e := y / WORD, y % WORD;
      var q, m := e / PAGE_SIZE, e % PAGE_SIZE;
      QuotientUnique(y, PAGE_SIZE, k * (WORD / PAGE_SIZE) + q, m);
      QuotientUnique(PageUp(x), WORD, k, q * PAGE_SIZE);
    }

    static method TotalLengths(memoryMap: seq<Region>) returns (total: nat, usable: nat)
      ensures total == TotalLength(memoryMap, false) && usable == TotalLength(memoryMap, true)
    {
      total, usable := 0, 0;
      for i := 0 to |memoryMap|
        invariant total == TotalLength(memoryMap[..i], false) && usable == TotalLength(memoryMap[..i], true)
      {
        assert memoryMap[..i + 1][..i] == memoryMap[..i];
        total := (total + memoryMap[i].length) % WORD;
        if memoryMap[i].kind == USABLE {
          usable := (usable + memoryMap[i].length) % WORD;
        } else {
          TotalBelowWord(memoryMap[..i], true);
        }
      }
      assert memoryMap[..|memoryMap|] == memoryMap;
    }

    /** Base and length of the first usable region, 0 and 0 if there is none. */
    static method FindUsable(memoryMap: seq<Region>) returns (start: nat, size: nat)
      ensures start == Handed(memoryMap).base && size == Handed(memoryMap).length
    {
      start, size := 0, 0;
      var i := 0;
      while i < |memoryMap|
        invariant 0 <= i <= |memoryMap| && start == 0 && size == 0
        invariant forall j :: 0 <= j < i ==> memoryMap[j].kind != USABLE
      {
        if memoryMap[i].kind == USABLE {
          start := memoryMap[i].base;
          size := memoryMap[i].length;
          break;
        }
        i := i + 1;
      }
      FirstUsableFound(memoryMap, i);
    }

    static lemma TotalBelowWord(rs: seq<Region>, usableOnly: bool)
      ensures TotalLength(rs, usableOnly) % WORD == TotalLength(rs, usableOnly)
    {
    }

    method Alloc(size: nat) returns (address: nat)
      requires Valid()
      modifies buddy, buddy.freeLists
      ensures Valid() && buddy.history == old(buddy.history) + [BuddyModel.Alloc(size)]
      ensures (buddy.pool, address) == BuddyModel.Allocate(old(buddy.pool), size)
      ensures address != 0 ==> Confined(regions, offset, Block(address, OrderFor(size)))
      ensures FirstUsable(regions) == |regions| ==> address == 0
    {
      ghost var p := buddy.pool;
      AllocateKeeps(p, size);
      address := buddy.Allocate(size);
      if address != 0 {
        InsideConfined(regions, offset, Block(address, OrderFor(size)));
      }
    }

    method Free(address: nat)
      requires Valid() && address in buddy.pool.live
      modifies buddy, buddy.freeLists
      ensures Valid() && buddy.history == old(buddy.history) + [Release(address)]
      ensures Shaped(old(buddy.pool)) && buddy.pool == BuddyModel.Free(old(buddy.pool), address)
    {
      buddy.Free(address);
    }
  }
}
