/** What every reachable state of the allocator satisfies, for any page-aligned start address. */
module BuddyInvariant {
  import opened Bits
  import opened Blocks
  import opened BuddyModel

  ghost function FreeBlocks(lists: FreeLists): set<Block> {
    set k: nat, a: nat | k < |lists| && a in lists[k] :: Block(a, k)
  }

  ghost function LiveBlocks(live: map<nat, nat>): set<Block> {
    set a | a in live :: Block(a, live[a])
  }

  ghost predicate NoDuplicates<T>(s: seq<T>) {
    forall i, j :: 0 <= i < j < |s| ==> s[i] != s[j]
  }

  /** The blocks on the lists, each on one list and once, tile [lo, hi) together with the blocks in held. */
  ghost predicate Sound(lists: FreeLists, held: set<Block>, lo: nat, hi: nat) {
    && |lists| == MAX_ORDER + 1
    && (forall k :: 0 <= k < |lists| ==> NoDuplicates(lists[k]))
    && FreeBlocks(lists) !! held
    && Tiles(FreeBlocks(lists) + held, lo, hi)
  }

  /** No two free buddies of one order below the top order. */
  ghost predicate Coalesced(blocks: set<Block>) {
    forall b :: b in blocks && b.order < MAX_ORDER ==> b.Buddy() !in blocks
  }

  /** What the kernel must hand over: page-aligned memory inside the address space; a pool that has
      a page does not start at address 0, which stands for "no block". */
  ghost predicate Usable(start: nat, size: nat) {
    start % PAGE_SIZE == 0 && start + size <= WORD && (start == 0 ==> size < PAGE_SIZE)
  }

  ghost predicate Invariant(p: Pool) {
    && Usable(p.start, p.size)
    && Sound(p.lists, LiveBlocks(p.live), p.start, p.End())
    && Coalesced(FreeBlocks(p.lists))
  }

  lemma InvariantShape(p: Pool)
    requires Invariant(p)
    ensures Shaped(p)
  {
    forall a | a in p.live
      ensures p.live[a] <= MAX_ORDER
    {
      assert Block(a, p.live[a]) in LiveBlocks(p.live);
      assert Inside(Block(a, p.live[a]), p.start, p.End());
    }
  }

  // ----- One list step at a time -----

  lemma TakeSound(lists: FreeLists, held: set<Block>, k: nat, j: nat, lo: nat, hi: nat)
    requires Sound(lists, held, lo, hi) && k < |lists| && j < |lists[k]|
    ensures var b := Block(lists[k][j], k);
            var after := lists[k := lists[k][..j] + lists[k][j + 1..]];
            && b !in held && FreeBlocks(after) == FreeBlocks(lists) - {b}
            && Sound(after, held + {b}, lo, hi)
  {
    var b := Block(lists[k][j], k);
    var after := lists[k := lists[k][..j] + lists[k][j + 1..]];
    assert b in FreeBlocks(lists);
    assert NoDuplicates(lists[k]);
    forall x
      ensures x in after[k] <==> x in lists[k] && x != b.addr
    {
      if x in lists[k] && x != b.addr {
        var i :| 0 <= i < |lists[k]| && lists[k][i] == x;
        assert after[k][if i < j then i else i - 1] == x;
      }
    }
    forall c: Block
      ensures c in FreeBlocks(after) <==> c in FreeBlocks(lists) - {b}
    {
    }
    assert FreeBlocks(after) + (held + {b}) == FreeBlocks(lists) + held;
  }

  lemma PopSound(lists: FreeLists, held: set<Block>, k: nat, lo: nat, hi: nat)
    requires Sound(lists, held, lo, hi) && k < |lists| && lists[k] != []
    ensures var b := Block(lists[k][0], k);
            var after := lists[k := lists[k][1..]];
            && b !in held && FreeBlocks(after) == FreeBlocks(lists) - {b}
            && Sound(after, held + {b}, lo, hi)
  {
    TakeSound(lists, held, k, 0, lo, hi);
    assert lists[k][..0] + lists[k][1..] == lists[k][1..];
  }

  lemma PushSound(lists: FreeLists, held: set<Block>, b: Block, lo: nat, hi: nat)
    requires Sound(lists, held, lo, hi) && b in held
    ensures b.order < |lists|
    ensures FreeBlocks(Push(lists, b)) == FreeBlocks(lists) + {b}
    ensures Sound(Push(lists, b), held - {b}, lo, hi)
  {
    assert Inside(b, lo, hi);
    var after := Push(lists, b);
    assert b !in FreeBlocks(lists);
    forall c: Block
      ensures c in FreeBlocks(after) <==> c in FreeBlocks(lists) + {b}
    {
    }
    assert NoDuplicates(lists[b.order]) && b.addr !in lists[b.order];
    assert FreeBlocks(after) + (held - {b}) == FreeBlocks(lists) + held;
  }

  lemma SplitHeldSound(lists: FreeLists, held: set<Block>, b: Block, lo: nat, hi: nat)
    requires Sound(lists, held, lo, hi) && b in held && b.order > 0
    ensures Sound(lists, held - {b} + {b.Lower(), b.Upper()}, lo, hi)
  {
    var blocks := FreeBlocks(lists) + held;
    TilesSplit(blocks, b, lo, hi);
    var after := held - {b} + {b.Lower(), b.Upper()};
    assert FreeBlocks(lists) + after == blocks - {b} + {b.Lower(), b.Upper()};
  }

  lemma MergeHeldSound(lists: FreeLists, held: set<Block>, b: Block, lo: nat, hi: nat)
    requires Sound(lists, held, lo, hi) && b in held && b.Buddy() in held && b.order < MAX_ORDER
    ensures Sound(lists, held - {b, b.Buddy()} + {b.Parent()}, lo, hi)
  {
    var blocks := FreeBlocks(lists) + held;
    TilesMerge(blocks, b, lo, hi);
    var after := held - {b, b.Buddy()} + {b.Parent()};
    assert FreeBlocks(lists) + after == blocks - {b, b.Buddy()} + {b.Parent()};
  }

  // ----- Splitting -----

  lemma SplitHeadSound(lists: FreeLists, held: set<Block>, i: nat, lo: nat, hi: nat)
    requires Sound(lists, held, lo, hi) && 0 < i < |lists| && lists[i] != []
    ensures Sound(SplitHead(lists, i), held, lo, hi)
  {
    var b := Block(lists[i][0], i);
    PopSound(lists, held, i, lo, hi);
    var l0, h0 := lists[i := lists[i][1..]], held + {b};
    SplitHeldSound(l0, h0, b, lo, hi);
    var h1 := h0 - {b} + {b.Lower(), b.Upper()};
    PushSound(l0, h1, b.Upper(), lo, hi);
    var l2, h2 := Push(l0, b.Upper()), h1 - {b.Upper()};
    PushSound(l2, h2, b.Lower(), lo, hi);
    assert held !! {b.Lower(), b.Upper()} by {
      TilesSplit(FreeBlocks(lists) + held, b, lo, hi);
    }
    assert h2 - {b.Lower()} == held;
  }

  lemma {:induction false} SplitDownSound(lists: FreeLists, held: set<Block>, i: nat, k: nat, lo: nat, hi: nat)
    requires Sound(lists, held, lo, hi) && k <= i < |lists| && lists[i] != []
    ensures Sound(SplitDown(lists, i, k), held, lo, hi)
    decreases i
  {
    if k < i {
      SplitHeadSound(lists, held, i, lo, hi);
      SplitDownSound(SplitHead(lists, i), held, i - 1, k, lo, hi);
    }
  }

  lemma SplitHeadShape(lists: FreeLists, i: nat)
    requires 0 < i < |lists| && lists[i] != [] && lists[i - 1] == []
    ensures var a := lists[i][0];
            SplitHead(lists, i) == lists[i := lists[i][1..]][i - 1 := [a, a + Size(i - 1)]]
  {
    var a := lists[i][0];
    hide Size;
    assert [a] + ([a + Size(i - 1)] + []) == [a, a + Size(i - 1)];
  }

  /** Splitting list i down to k through empty lists: every list in between gets one upper half,
      list k gets the head's address and its upper half. */
  lemma {:induction false} SplitDownShape(lists: FreeLists, i: nat, k: nat)
    requires k <= i < |lists| && lists[i] != []
    requires forall j :: k <= j < i ==> lists[j] == []
    ensures var r := SplitDown(lists, i, k); var a := lists[i][0];
            && (forall j :: 0 <= j < |lists| && (j < k || j > i) ==> r[j] == lists[j])
            && r[k][0] == a
            && (k == i ==> r == lists)
            && (k < i ==> r[i] == lists[i][1..] && r[k] == [a, a + Size(k)])
            && (forall j :: k < j < i ==> r[j] == [a + Size(j)])
    decreases i
  {
    if k < i {
      SplitHeadShape(lists, i);
      hide SplitHead;
      var next := SplitHead(lists, i);
      SplitDownShape(next, i - 1, k);
      hide Size;
      assert next[i - 1][1..] == [lists[i][0] + Size(i - 1)];
    }
  }

  // ----- Merging -----

  lemma {:induction false} RemoveAt<T>(s: seq<T>, x: T, j: nat)
    requires j < |s| && s[j] == x && x !in s[..j]
    ensures Remove(s, x) == s[..j] + s[j + 1..]
  {
    if j > 0 {
      assert s[0] in s[..j];
      assert s[1..][..j - 1] == s[1..j];
      RemoveAt(s[1..], x, j - 1);
    }
  }

  lemma RemoveSound(lists: FreeLists, held: set<Block>, b: Block, lo: nat, hi: nat)
    requires Sound(lists, held, lo, hi) && b in FreeBlocks(lists)
    ensures var after := lists[b.order := Remove(lists[b.order], b.addr)];
            && b !in held && FreeBlocks(after) == FreeBlocks(lists) - {b}
            && Sound(after, held + {b}, lo, hi)
  {
    var s := lists[b.order];
    var j :| 0 <= j < |s| && s[j] == b.addr;
    assert NoDuplicates(s);
    RemoveAt(s, b.addr, j);
    TakeSound(lists, held, b.order, j, lo, hi);
  }

  /** One round of the merge loop. */
  lemma MergeRound(lists: FreeLists, held: set<Block>, b: Block, lo: nat, hi: nat)
    requires b !in held && Sound(lists, held + {b}, lo, hi)
    requires b.order < MAX_ORDER && b.Buddy() in FreeBlocks(lists)
    ensures var after := lists[b.order := Remove(lists[b.order], b.Buddy().addr)];
            && b.Parent() !in held && Sound(after, held + {b.Parent()}, lo, hi)
            && FreeBlocks(after) == FreeBlocks(lists) - {b.Buddy()}
  {
    var u, m := b.Buddy(), b.Parent();
    var after := lists[b.order := Remove(lists[b.order], u.addr)];
    BuddyIsAdjacent(b);
    RemoveSound(lists, held + {b}, u, lo, hi);
    var h := held + {b} + {u};
    MergeHeldSound(after, h, b, lo, hi);
    TilesMerge(FreeBlocks(after) + h, b, lo, hi);
    assert h - {b, u} + {m} == held + {m};
  }

  lemma {:induction false} CoalesceSound(lists: FreeLists, held: set<Block>, b: Block, lo: nat, hi: nat)
    requires b !in held && b.order <= MAX_ORDER && Sound(lists, held + {b}, lo, hi)
    ensures var (rest, m) := Coalesce(lists, b);
            && m !in held && Sound(rest, held + {m}, lo, hi)
            && FreeBlocks(rest) <= FreeBlocks(lists)
            && (m.order < MAX_ORDER ==> m.Buddy() !in FreeBlocks(rest))
    decreases MAX_ORDER - b.order
  {
    if b.order < MAX_ORDER && b.Buddy().addr in lists[b.order] {
      assert b.Buddy() in FreeBlocks(lists);
      MergeRound(lists, held, b, lo, hi);
      CoalesceSound(lists[b.order := Remove(lists[b.order], b.Buddy().addr)], held, b.Parent(), lo, hi);
    }
  }

  // ----- Whole operations keep the invariant -----

  /** After a split and a pop the lists from k to i hold at most one block each, or lost one. */
  lemma SplitKeepsCoalesced(lists: FreeLists, i: nat, k: nat)
    requires k <= i < |lists| && lists[i] != []
    requires forall j :: k <= j < i ==> lists[j] == []
    requires Coalesced(FreeBlocks(lists))
    ensures var split := SplitDown(lists, i, k); Coalesced(FreeBlocks(split[k := split[k][1..]]))
  {
    SplitDownShape(lists, i, k);
    var split := SplitDown(lists, i, k);
    var after := split[k := split[k][1..]];
    forall b | b in FreeBlocks(after) && b.order < MAX_ORDER
      ensures b.Buddy() !in FreeBlocks(after)
    {
      BuddyIsAdjacent(b);
      if b.order < k || b.order >= i {
        assert b in FreeBlocks(lists);
      }
    }
  }

  /** Splitting down to list k and taking its head moves one block from the lists to held. */
  lemma GrantSound(lists: FreeLists, held: set<Block>, i: nat, k: nat, lo: nat, hi: nat)
    requires Sound(lists, held, lo, hi) && k <= i < |lists| && lists[i] != []
    requires forall j :: k <= j < i ==> lists[j] == []
    ensures var split := SplitDown(lists, i, k); var b := Block(lists[i][0], k);
            && split[k][0] == b.addr && b !in held && Inside(b, lo, hi)
            && Sound(split[k := split[k][1..]], held + {b}, lo, hi)
  {
    SplitDownSound(lists, held, i, k, lo, hi);
    SplitDownShape(lists, i, k);
    PopSound(SplitDown(lists, i, k), held, k, lo, hi);
  }

  lemma HeldAddressesDiffer(lists: FreeLists, held: set<Block>, b: Block, c: Block, lo: nat, hi: nat)
    requires Sound(lists, held, lo, hi) && b in held && c in FreeBlocks(lists) + held && b != c
    ensures b.addr != c.addr
  {
    assert b.Apart(c);
  }

  lemma LiveBlocksAdd(live: map<nat, nat>, a: nat, k: nat)
    requires a !in live
    ensures LiveBlocks(live[a := k]) == LiveBlocks(live) + {Block(a, k)}
  {
    var after := live[a := k];
    forall c: Block
      ensures c in LiveBlocks(after) <==> c in LiveBlocks(live) + {Block(a, k)}
    {
      assert c.addr in after <==> c.addr in live || c.addr == a;
    }
  }

  lemma LiveBlocksDrop(live: map<nat, nat>, a: nat)
    requires a in live
    ensures LiveBlocks(live - {a}) == LiveBlocks(live) - {Block(a, live[a])}
  {
    var after := live - {a};
    forall c: Block
      ensures c in LiveBlocks(after) <==> c in LiveBlocks(live) - {Block(a, live[a])}
    {
      assert c.addr in after <==> c.addr in live && c.addr != a;
    }
  }

  lemma AllocateKeeps(p: Pool, size: nat)
    requires Invariant(p)
    ensures Invariant(Allocate(p, size).0)
    ensures var (q, a) := Allocate(p, size); var b := Block(a, OrderFor(size));
            a != 0 ==> a !in p.live && q.live == p.live[a := b.order] && Inside(b, p.start, p.End())
    ensures var (q, a) := Allocate(p, size);
            a == 0 <==> FirstFit(p.lists, OrderFor(size)) > MAX_ORDER
  {
    var k := OrderFor(size);
    var i := FirstFit(p.lists, k);
    if i <= MAX_ORDER {
      var held := LiveBlocks(p.live);
      var b := Block(p.lists[i][0], k);
      GrantSound(p.lists, held, i, k, p.start, p.End());
      SplitKeepsCoalesced(p.lists, i, k);
      var split := SplitDown(p.lists, i, k);
      var after := split[k := split[k][1..]];
      if b.addr in p.live {
        HeldAddressesDiffer(after, held + {b}, b, Block(b.addr, p.live[b.addr]), p.start, p.End());
        assert false;
      }
      LiveBlocksAdd(p.live, b.addr, k);
    }
  }

  lemma FreeKeeps(p: Pool, a: nat)
    requires Invariant(p) && a in p.live
    ensures Shaped(p)
    ensures Invariant(Free(p, a))
  {
    InvariantShape(p);
    var b := Block(a, p.live[a]);
    var held := LiveBlocks(p.live) - {b};
    assert held + {b} == LiveBlocks(p.live);
    CoalesceSound(p.lists, held, b, p.start, p.End());
    var (rest, m) := Coalesce(p.lists, b);
    PushSound(rest, held + {m}, m, p.start, p.End());
    assert held + {m} - {m} == held;
    LiveBlocksDrop(p.live, a);
    PushKeepsCoalesced(p.lists, rest, m);
  }

  lemma PushKeepsCoalesced(lists: FreeLists, rest: FreeLists, m: Block)
    requires Coalesced(FreeBlocks(lists)) && FreeBlocks(rest) <= FreeBlocks(lists) && m.order < |rest|
    requires m.order < MAX_ORDER ==> m.Buddy() !in FreeBlocks(rest)
    requires FreeBlocks(Push(rest, m)) == FreeBlocks(rest) + {m}
    ensures Coalesced(FreeBlocks(Push(rest, m)))
  {
    forall c | c in FreeBlocks(rest) + {m} && c.order < MAX_ORDER
      ensures c.Buddy() !in FreeBlocks(rest) + {m}
    {
      BuddyIsAdjacent(c);
    }
  }

  lemma StepKeeps(p: Pool, e: Event)
    requires Invariant(p) && CanStep(p, e)
    ensures Invariant(Step(p, e)) && Step(p, e).start == p.start && Step(p, e).size == p.size
  {
    match e
    case Alloc(size) => AllocateKeeps(p, size);
    case Release(a) => FreeKeeps(p, a);
  }

  /** Partition and full coalescing hold after any run of requests and releases. */
  lemma {:induction false} RunKeeps(p: Pool, es: seq<Event>)
    requires Invariant(p) && CanRun(p, es)
    ensures Invariant(Run(p, es)) && Run(p, es).start == p.start && Run(p, es).size == p.size
    decreases |es|
  {
    if es != [] {
      var n := |es| - 1;
      RunKeeps(p, es[..n]);
      StepKeeps(Run(p, es[..n]), es[n]);
    }
  }
}
