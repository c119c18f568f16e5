/** The allocator as the kernel runs it: list heads in an array, links and sizes inside the pool's memory. */
module BuddyAllocators {
  import opened Bits
  import opened Blocks
  import opened BuddyModel
  import opened BuddyInvariant
  import opened BuddyInit
  import opened BuddyAccounting
  import opened BuddyTheorems
  import opened BuddyLinks

  function FindBuddy(address: nat, size: nat): nat {
    Xor(address, size)
  }

  method FindOrder(size: nat) returns (order: nat)
    ensures order == OrderFor(size)
  {
    order := 0;
    var blockSize := PAGE_SIZE;
    while blockSize < size && order < MAX_ORDER
      invariant order <= MAX_ORDER && blockSize == Size(order)
      invariant order > 0 ==> Size(order - 1) < size
    {
      blockSize := blockSize * 2;
      order := order + 1;
    }
    OrderUnique(size, order);
  }

  /** The lists and live blocks are those of the run so far. */
  ghost predicate Recorded(p: Pool, es: seq<Event>) {
    CanRun(Init(p.start, p.size), es) && p == Run(Init(p.start, p.size), es)
  }

  lemma RecordedBytes(p: Pool, es: seq<Event>)
    requires Invariant(p) && Recorded(p, es)
    ensures FreeTotal(p.lists) + LiveTotal(p.live) == p.size - p.size % PAGE_SIZE
  {
    BytesConserved(p.start, p.size, es);
  }

  lemma Record(p: Pool, es: seq<Event>, e: Event)
    requires Invariant(p) && Recorded(p, es) && CanStep(p, e)
    ensures Recorded(Step(p, e), es + [e])
  {
    StepKeeps(p, e);
    RunOneMore(Init(p.start, p.size), es, e);
  }

  // ----- What a client does: requests, releases, and writes into its own blocks -----

  datatype Command = Do(event: Event) | Store(page: nat, header: Header)

  ghost function Events(cs: seq<Command>): seq<Event> {
    if cs == [] then []
    else
      var n := |cs| - 1;
      Events(cs[..n]) + if cs[n].Do? then [cs[n].event] else []
  }

  /** The page lies in a live block; at the block's base the size word is kept. */
  ghost predicate MayStore(p: Pool, page: nat, h: Header) {
    && page % PAGE_SIZE == 0
    && (exists b :: b in LiveBlocks(p.live) && b.Has(page))
    && (page in p.live ==> h.size == Size(p.live[page]))
  }

  ghost predicate MayExecute(p: Pool, cs: seq<Command>)
    decreases |cs|
  {
    cs == [] ||
    (var n := |cs| - 1;
     && MayExecute(p, cs[..n])
     && CanRun(p, Events(cs[..n]))
     && match cs[n] {
       case Do(e) => CanStep(Run(p, Events(cs[..n])), e)
       case Store(page, h) => MayStore(Run(p, Events(cs[..n])), page, h)
     })
  }

  lemma EventsOneMore(cs: seq<Command>, c: Command)
    ensures Events(cs + [c]) == Events(cs) + if c.Do? then [c.event] else []
  {
    assert (cs + [c])[..|cs|] == cs;
  }

  function Commands(es: seq<Event>): seq<Command> {
    if es == [] then [] else Commands(es[..|es| - 1]) + [Do(es[|es| - 1])]
  }

  lemma DoExecutes(p: Pool, cs: seq<Command>, e: Event)
    requires MayExecute(p, cs) && CanRun(p, Events(cs)) && CanStep(Run(p, Events(cs)), e)
    ensures MayExecute(p, cs + [Do(e)]) && Events(cs + [Do(e)]) == Events(cs) + [e]
  {
    hide CanRun, Run, CanStep, Events;
    EventsOneMore(cs, Do(e));
    assert (cs + [Do(e)])[..|cs|] == cs;
  }

  lemma LastStep(p: Pool, es: seq<Event>, n: nat)
    requires CanRun(p, es) && n + 1 == |es|
    ensures CanRun(p, es[..n]) && CanStep(Run(p, es[..n]), es[n])
  {
  }

  /** Every run is a program without stores. */
  lemma {:induction false} RunsExecute(p: Pool, es: seq<Event>)
    requires CanRun(p, es)
    ensures Events(Commands(es)) == es && MayExecute(p, Commands(es))
    decreases |es|
  {
    hide CanRun, Run, CanStep;
    if es != [] {
      hide Events, MayExecute;
      var n := |es| - 1;
      LastStep(p, es, n);
      RunsExecute(p, es[..n]);
      DoExecutes(p, Commands(es[..n]), es[n]);
      assert es == es[..n] + [es[n]];
    }
  }

  /** At any point a program may write to any page of a live block but over its size word. */
  lemma StoreExecutes(p: Pool, cs: seq<Command>, b: Block, page: nat, h: Header)
    requires Invariant(p) && MayExecute(p, cs) && CanRun(p, Events(cs))
    requires b in LiveBlocks(Run(p, Events(cs)).live) && b.Has(page) && page % PAGE_SIZE == 0
    requires page == b.addr ==> h.size == Size(b.order)
    ensures MayExecute(p, cs + [Store(page, h)]) && Events(cs + [Store(page, h)]) == Events(cs)
  {
    var q := Run(p, Events(cs));
    RunKeeps(p, Events(cs));
    if page in q.live {
      SameBlock(FreeBlocks(q.lists) + LiveBlocks(q.live), b, Block(page, q.live[page]), page, q.start, q.End());
    }
    EventsOneMore(cs, Store(page, h));
    assert (cs + [Store(page, h)])[..|cs|] == cs;
  }

  /** The addresses that the requests in es return, in order. */
  ghost function Results(p: Pool, es: seq<Event>): seq<nat>
    requires CanRun(p, es)
    decreases |es|
  {
    if es == [] then []
    else
      var n := |es| - 1;
      Results(p, es[..n]) + if es[n].Alloc? then [BuddyModel.Allocate(Run(p, es[..n]), es[n].size).1] else []
  }

  lemma ResultsOneMore(p: Pool, es: seq<Event>, e: Event)
    requires CanRun(p, es) && CanStep(Run(p, es), e)
    ensures CanRun(p, es + [e])
    ensures Results(p, es + [e])
            == Results(p, es) + if e.Alloc? then [BuddyModel.Allocate(Run(p, es), e.size).1] else []
  {
    RunOneMore(p, es, e);
    var all := es + [e];
    assert all[..|all| - 1] == es;
  }

  class BuddyAllocator {
    var startAddress: nat
    var poolSize: nat
    const freeLists: array<nat>
    /** The header words at the base of every page of the pool. */
    var memory: Memory
    ghost var pool: Pool
    ghost var history: seq<Event>

    ghost predicate Threaded(held: set<Block>)
      reads this, freeLists
    {
      && freeLists.Length == MAX_ORDER + 1
      && startAddress == pool.start && poolSize == pool.size
      && Wired(freeLists[..], memory, pool, held)
    }

    ghost predicate Valid()
      reads this, freeLists
    {
      Threaded(LiveBlocks(pool.live)) && Invariant(pool) && Recorded(pool, history)
    }

    constructor (start: nat, size: nat, ram: Memory)
      requires Usable(start, size) && HasPages(ram, start, start + (size - size % PAGE_SIZE))
      ensures Valid() && pool == Init(start, size) && history == [] && fresh(freeLists)
    {
      startAddress := start;
      poolSize := size;
      freeLists := new nat[MAX_ORDER + 1];
      memory := ram;
      pool := Pool(start, size, NO_BLOCKS, map[]);
      history := [];
      new;
      for i := 0 to MAX_ORDER + 1
        invariant forall k :: 0 <= k < i ==> freeLists[k] == 0
        invariant startAddress == start && poolSize == size && history == []
        invariant memory == ram && pool == Pool(start, size, NO_BLOCKS, map[])
      {
        freeLists[i] := 0;
      }
      CarvePool();
      assert LiveBlocks(pool.live) == {};
      InitInvariant(start, size);
    }

    /** Carve the whole pool, largest fitting block first. */
    method CarvePool()
      requires freeLists.Length == MAX_ORDER + 1 && startAddress == pool.start && poolSize == pool.size
      requires Usable(pool.start, pool.size) && HasPages(memory, pool.start, pool.End())
      requires pool.lists == NO_BLOCKS && forall k :: 0 <= k < freeLists.Length ==> freeLists[k] == 0
      modifies this`memory, this`pool, freeLists
      ensures Threaded({}) && pool == old(pool).(lists := Carve(NO_BLOCKS, pool.start, pool.size))
    {
      hide Carving, Wired, Carve, LargestFit;
      ghost var p0, target := pool, Carve(NO_BLOCKS, pool.start, pool.size);
      CarvingStarts(freeLists[..], memory, pool);
      var remaining: nat, current: nat := poolSize, startAddress;
      while remaining >= PAGE_SIZE
        invariant pool == p0.(lists := pool.lists)
        invariant Carving(freeLists[..], memory, pool, current, remaining, target)
      {
        var order: int, blockSize := MAX_ORDER, Size(MAX_ORDER);
        while order >= 0 && blockSize > remaining
          invariant 0 <= order <= MAX_ORDER && blockSize == Size(order)
          invariant order < MAX_ORDER ==> remaining < Size(order + 1)
          decreases order
        {
          order := order - 1;
          blockSize := blockSize / 2;
        }
        FitUnique(remaining, LargestFit(remaining), order);
        ghost var heads, memory0, lists0, current0, left0 := freeLists[..], memory, pool.lists, current, remaining;
        CarvingHeader(heads, memory, pool, current, remaining, target);

        memory := memory[current := Header(freeLists[order], blockSize)];
        freeLists[order] := current;
        pool := pool.(lists := Push(pool.lists, Block(current, order)));
        current := current + blockSize;
        remaining := remaining - blockSize;

        CarvingStep(heads, memory0, p0.(lists := lists0), current0, left0, target, order, current, remaining);
        assert freeLists[..] == heads[order := current0];
      }
      CarvingEnds(freeLists[..], memory, pool, current, remaining, target);
    }

    method SplitBlock(order: nat, ghost held: set<Block>)
      requires order <= MAX_ORDER && Threaded(held)
      modifies this`memory, this`pool, freeLists
      ensures Threaded(held)
      ensures pool == old(pool).(lists := SplitHead(old(pool.lists), order))
    {
      hide Wired;
      WiredHead(freeLists[..], memory, pool, held, order);
      if order == 0 || freeLists[order] == 0 {
        return;
      }
      ghost var heads0, memory0, p0 := freeLists[..], memory, pool;
      var block := freeLists[order];
      ghost var b := Block(block, order);
      WiredPop(heads0, memory0, p0, held, order);
      freeLists[order] := memory[block].next;
      ghost var heads1, p1 := freeLists[..], p0.(lists := p0.lists[order := p0.lists[order][1..]]);
      assert heads1 == heads0[order := memory0[block].next];

      var halfSize := Size(order - 1);
      var buddy := block + halfSize;
      ghost var l, u := b.Lower(), b.Upper();
      WiredHalve(heads1, memory0, p1, held + {b}, b);
      var ram := memory;
      ram := ram[block := ram[block].(size := halfSize)];
      ram := ram[buddy := ram[buddy].(size := halfSize)];
      ghost var memory1 := ram;
      assert held + {b} - {b} + {l, u} == held + {l, u};

      WiredPush(heads1, memory1, p1, held + {l, u}, u);
      ghost var memory2 := memory1[buddy := memory1[buddy].(next := heads1[order - 1])];
      ghost var heads2, p2 := heads1[order - 1 := buddy], p1.(lists := Push(p1.lists, u));
      assert held + {l, u} - {u} == held + {l} by {
        HalvesUnheld(heads0, memory0, p0, held, b);
      }
      WiredPush(heads2, memory2, p2, held + {l}, l);

      ram := ram[block := ram[block].(next := buddy)];
      ram := ram[buddy := ram[buddy].(next := freeLists[order - 1])];
      memory := ram;
      freeLists[order - 1] := block;
      pool := pool.(lists := SplitHead(pool.lists, order));

      assert memory == memory2[block := memory2[block].(next := buddy)];
      assert freeLists[..] == heads2[order - 1 := block];
      assert held + {l} - {l} == held by {
        HalvesUnheld(heads0, memory0, p0, held, b);
      }
      assert pool == p2.(lists := Push(p2.lists, l));
    }

    static lemma HalvesUnheld(heads: seq<nat>, memory: Memory, p: Pool, held: set<Block>, b: Block)
      requires Wired(heads, memory, p, held) && 0 < b.order < |p.lists| && b.addr in p.lists[b.order]
      ensures b.Lower() !in held && b.Upper() !in held && b.Lower() != b.Upper()
    {
      assert b in FreeBlocks(p.lists);
      TilesSplit(FreeBlocks(p.lists) + held, b, p.start, p.End());
    }

    /** Advance the head of one list. */
    method TakeHead(order: nat, ghost held: set<Block>) returns (block: nat)
      requires order <= MAX_ORDER && Threaded(held) && order < |pool.lists| && pool.lists[order] != []
      modifies this`pool, freeLists
      ensures Threaded(held + {Block(block, order)}) && block == old(pool.lists)[order][0]
      ensures pool == old(pool).(lists := old(pool.lists)[order := old(pool.lists)[order][1..]])
    {
      hide Wired;
      ghost var heads := freeLists[..];
      WiredPop(heads, memory, pool, held, order);
      block := freeLists[order];
      freeLists[order] := memory[block].next;
      pool := pool.(lists := pool.lists[order := pool.lists[order][1..]]);
      assert freeLists[..] == heads[order := memory[block].next];
    }

    /** Split from list i down to the wanted order and take the head there. */
    method SplitAndTake(from: nat, order: nat, ghost held: set<Block>) returns (block: nat)
      requires order <= from <= MAX_ORDER && Threaded(held)
      requires from < |pool.lists| && pool.lists[from] != []
      modifies this`memory, this`pool, freeLists
      ensures Threaded(held + {Block(block, order)})
      ensures var split := SplitDown(old(pool.lists), from, order);
              block == split[order][0] && pool == old(pool).(lists := split[order := split[order][1..]])
    {
      hide Wired, Size;
      ghost var p0 := pool;
      var i := from;
      while i > order
        invariant order <= i <= from && Threaded(held) && i < |pool.lists| == |p0.lists| && pool.lists[i] != []
        invariant pool == p0.(lists := pool.lists)
        invariant SplitDown(pool.lists, i, order) == SplitDown(p0.lists, from, order)
      {
        SplitBlock(i, held);
        i := i - 1;
      }
      block := TakeHead(i, held);
    }

    /** Scan the lists from the wanted order up and take a block from the first non-empty one. */
    method TakeFirstFit(order: nat, ghost held: set<Block>) returns (result: nat)
      requires order <= MAX_ORDER && Threaded(held)
      modifies this`memory, this`pool, freeLists
      ensures |old(pool.lists)| == MAX_ORDER + 1
      ensures var i := FirstFit(old(pool.lists), order);
              if i > MAX_ORDER then result == 0 && pool == old(pool) && Threaded(held)
              else
                var split := SplitDown(old(pool.lists), i, order);
                && result == split[order][0] && pool == old(pool).(lists := split[order := split[order][1..]])
                && Threaded(held + {Block(result, order)})
    {
      hide Wired;
      ghost var p0 := pool;
      WiredHead(freeLists[..], memory, pool, held, order);
      var i := order;
      while i <= MAX_ORDER
        invariant order <= i <= MAX_ORDER + 1 && Threaded(held) && pool == p0
        invariant FirstFit(p0.lists, order) == FirstFit(p0.lists, i)
      {
        WiredHead(freeLists[..], memory, pool, held, i);
        if freeLists[i] != 0 {
          result := SplitAndTake(i, order, held);
          return;
        }
        i := i + 1;
      }
      result := 0;
    }

    /** Address of a block of at least the requested size (up to the top size), or 0. */
    method Allocate(size: nat) returns (result: nat)
      requires Valid()
      modifies this, freeLists
      ensures Valid() && history == old(history) + [Alloc(size)]
      ensures (pool, result) == BuddyModel.Allocate(old(pool), size)
    {
      hide Wired, Invariant, Recorded, SplitDown, FirstFit, OrderFor, Size, LiveBlocks, FreeBlocks;
      var order := FindOrder(size);
      if order > MAX_ORDER {
        assert false;
      }
      ghost var p0, held := pool, LiveBlocks(pool.live);
      AllocateKeeps(pool, size);
      InvariantShape(pool);
      Record(pool, history, Alloc(size));
      result := TakeFirstFit(order, held);
      history := history + [Alloc(size)];
      if FirstFit(p0.lists, order) <= MAX_ORDER {
        ghost var p1 := pool;
        pool := pool.(live := p0.live[result := order]);
        LiveBlocksAdd(p0.live, result, order);
        WiredSameLists(freeLists[..], memory, p1, pool, held + {Block(result, order)});
      }
    }

    /** Take back a live block and merge it with free buddies as far as possible. */
    method Free(a: nat)
      requires Valid() && a in pool.live
      modifies this, freeLists
      ensures Valid() && Shaped(old(pool)) && pool == BuddyModel.Free(old(pool), a)
      ensures history == old(history) + [Release(a)]
    {
      hide Wired, Invariant, Recorded;
      ghost var p0, b0 := pool, Block(a, pool.live[a]);
      ghost var held := LiveBlocks(pool.live) - {b0};
      assert held + {b0} == LiveBlocks(pool.live);
      FreeKeeps(pool, a);
      Record(pool, history, Release(a));
      LiveBlocksDrop(pool.live, a);
      MergeAndInsert(a, held, b0);
      ghost var p1 := pool;
      pool := pool.(live := p0.live - {a});
      history := history + [Release(a)];
      WiredSameLists(freeLists[..], memory, p1, pool, held);
    }

    /** The body of free: the order comes from the size word; merge while the buddy is free, then insert. */
    method MergeAndInsert(start: nat, ghost held: set<Block>, ghost b0: Block)
      requires start == b0.addr && b0.order <= MAX_ORDER && b0 !in held && Threaded(held + {b0})
      modifies this`memory, this`pool, freeLists
      ensures Threaded(held)
      ensures |old(pool.lists)| == MAX_ORDER + 1
      ensures var (rest, m) := Coalesce(old(pool.lists), b0); pool == old(pool).(lists := Push(rest, m))
    {
      hide Wired, Coalesce, Size, Pow2, Xor, OrderFor;
      var address := start;
      OrderOfSize(b0.order);
      WiredHead(freeLists[..], memory, pool, held + {b0}, b0.order);
      WiredHeld(freeLists[..], memory, pool, held + {b0}, b0);
      var order := FindOrder(memory[address].size);
      ghost var p0, b := pool, b0;
      while order < MAX_ORDER
        invariant order <= MAX_ORDER && b.addr == address && b.order == order
        invariant b !in held && Threaded(held + {b})
        invariant pool == p0.(lists := pool.lists) && |pool.lists| == |p0.lists| == MAX_ORDER + 1
        invariant Coalesce(pool.lists, b) == Coalesce(p0.lists, b0)
        decreases MAX_ORDER - order
      {
        ghost var u := b.Buddy();
        WiredHeld(freeLists[..], memory, pool, held + {b}, b);
        var buddy := FindBuddy(address, memory[address].size);
        var found, prev, curr := Search(order, buddy, held + {b});
        if !found {
          break;
        }
        CoalesceStep(pool.lists, b, pool.lists[order := Remove(pool.lists[order], buddy)]);
        Unlink(order, prev, curr, held + {b}, u);
        assert held + {b} + {u} == held + {b, u};
        if buddy < address {
          address := buddy;
        }
        WiredGrow(freeLists[..], memory, pool, held, b);
        memory := memory[address := memory[address].(size := memory[address].size * 2)];
        order := order + 1;
        b := b.Parent();
      }
      CoalesceStops(pool.lists, b);
      ghost var heads := freeLists[..];
      WiredPush(heads, memory, pool, held + {b}, b);
      memory := memory[address := memory[address].(next := freeLists[order])];
      freeLists[order] := address;
      pool := pool.(lists := Push(pool.lists, b));
      assert freeLists[..] == heads[order := address];
      assert held + {b} - {b} == held;
    }

    /** Walk the list of one order looking for the buddy; prev is the node before it, 0 at the head. */
    method Search(order: nat, buddy: nat, ghost held: set<Block>) returns (found: bool, prev: nat, curr: nat)
      requires order <= MAX_ORDER && Threaded(held)
      ensures |pool.lists| == MAX_ORDER + 1 && found == (buddy in pool.lists[order])
      ensures found ==> curr == buddy && Precedes(pool.lists[order], prev, buddy)
    {
      ghost var s, j := pool.lists[order], 0;
      found := false;
      prev := 0;
      curr := freeLists[order];
      assert Linked(memory, freeLists[..][order], s);
      while curr != 0
        invariant 0 <= j <= |s| && buddy !in s[..j] && !found
        invariant curr == if j < |s| then s[j] else 0
        invariant prev == Before(s, j)
        decreases |s| - j
      {
        if curr == buddy {
          assert s[j] == buddy;
          found := true;
          break;
        }
        assert Node(memory, s, j);
        prev := curr;
        curr := memory[curr].next;
        assert s[..j + 1] == s[..j] + [s[j]];
        j := j + 1;
      }
      assert found || j == |s| || Node(memory, s, j);
      assert s[..|s|] == s;
    }

    /** Take the block that Search found off its list. */
    method Unlink(order: nat, prev: nat, curr: nat, ghost held: set<Block>, ghost b: Block)
      requires order <= MAX_ORDER && b.order == order && curr == b.addr && Threaded(held)
      requires order < |pool.lists| && Precedes(pool.lists[order], prev, curr)
      modifies this`memory, this`pool, freeLists
      ensures b !in held && Threaded(held + {b})
      ensures order < |old(pool.lists)| && curr in old(pool.lists)[order]
      ensures pool == old(pool).(lists := old(pool.lists)[order := Remove(old(pool.lists)[order], curr)])
    {
      ghost var heads := freeLists[..];
      WiredUnlink(heads, memory, pool, held, b, prev);
      if prev == 0 {
        freeLists[order] := memory[curr].next;
        assert freeLists[..] == heads[order := memory[curr].next];
      } else {
        memory := memory[prev := memory[prev].(next := memory[curr].next)];
      }
      pool := pool.(lists := pool.lists[order := Remove(pool.lists[order], curr)]);
    }

    /** A client's write into one of its blocks leaves the allocator as it was. */
    method ClientStore(page: nat, h: Header)
      requires Valid() && MayStore(pool, page, h)
      modifies this`memory
      ensures Valid() && memory == old(memory)[page := h]
    {
      hide Invariant, Recorded;
      ghost var b :| b in LiveBlocks(pool.live) && b.Has(page);
      WiredClientStore(freeLists[..], memory, pool, LiveBlocks(pool.live), b, page, h);
      memory := memory[page := h];
    }

    /** Whatever clients write, the allocator's state and answers are those of the bare run of events. */
    method Execute(cs: seq<Command>) returns (results: seq<nat>)
      requires Valid() && MayExecute(pool, cs)
      modifies this, freeLists
      ensures Valid() && history == old(history) + Events(cs)
      ensures CanRun(old(pool), Events(cs)) && pool == Run(old(pool), Events(cs))
      ensures results == Results(old(pool), Events(cs))
      decreases |cs|
    {
      hide Wired, Invariant, Recorded, BuddyModel.Allocate, BuddyModel.Free;
      if cs == [] {
        return [];
      }
      var n := |cs| - 1;
      ghost var es := Events(cs[..n]);
      results := Execute(cs[..n]);
      match cs[n]
      case Do(Alloc(size)) =>
        RunOneMore(old(pool), es, Alloc(size));
        ResultsOneMore(old(pool), es, Alloc(size));
        var a := Allocate(size);
        results := results + [a];
      case Do(Release(a)) =>
        RunOneMore(old(pool), es, Release(a));
        ResultsOneMore(old(pool), es, Release(a));
        Free(a);
      case Store(page, h) =>
        assert Events(cs) == es;
        ClientStore(page, h);
    }

    /** Walk one list: how many blocks, how many bytes, and which. */
    method WalkList(order: nat) returns (count: nat, bytes: nat, blocks: seq<nat>)
      requires Valid() && order <= MAX_ORDER
      ensures |pool.lists| == MAX_ORDER + 1 && blocks == pool.lists[order]
      ensures count == |blocks| && bytes == count * Size(order)
    {
      ghost var s := pool.lists[order];
      assert Linked(memory, freeLists[..][order], s);
      var blockSize := Size(order);
      count, bytes, blocks := 0, 0, [];
      var current := freeLists[order];
      while current != 0
        invariant count <= |s| && blocks == s[..count] && bytes == count * blockSize
        invariant current == if count < |s| then s[count] else 0
        decreases |s| - count
      {
        assert Node(memory, s, count);
        assert (count + 1) * blockSize == count * blockSize + blockSize;
        blocks := blocks + [current];
        bytes := bytes + blockSize;
        count := count + 1;
        current := memory[current].next;
      }
      assert count == |s| || Node(memory, s, count);
    }

    /** Free bytes; the pool's other bytes are the live ones and its partial page. */
    method TotalFree() returns (total: nat)
      requires Valid()
      ensures total == FreeTotal(pool.lists)
      ensures poolSize - total == LiveTotal(pool.live) + poolSize % PAGE_SIZE
    {
      hide Wired, Recorded, Invariant, LiveBlocks, LiveTotal;
      InvariantShape(pool);
      RecordedBytes(pool, history);
      total := 0;
      for order := 0 to MAX_ORDER + 1
        invariant total == FreeTotalBelow(pool.lists, order)
      {
        var _, bytes, _ := WalkList(order);
        total := total + bytes;
      }
    }
  }
}
