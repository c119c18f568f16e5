/** Free lists threaded through the managed memory: each free block's header holds the next address. */
module BuddyLinks {
  import opened Blocks
  import opened BuddyModel
  import opened BuddyInvariant
  import opened BuddyInit

  /** The two words at the base of a page that the allocator may read. */
  datatype Header = Header(next: nat, size: nat)

  type Memory = map<nat, Header>

  function After(s: seq<nat>, i: nat): nat {
    if i + 1 < |s| then s[i + 1] else 0
  }

  ghost predicate Node(memory: Memory, s: seq<nat>, i: nat)
    requires i < |s|
  {
    s[i] != 0 && s[i] in memory && memory[s[i]].next == After(s, i)
  }

  /** Following next from head visits exactly the addresses of s and ends at NULL. */
  ghost predicate Linked(memory: Memory, head: nat, s: seq<nat>) {
    head == (if s == [] then 0 else s[0]) && forall i :: 0 <= i < |s| ==> Node(memory, s, i)
  }

  ghost predicate Represents(heads: seq<nat>, memory: Memory, lists: FreeLists) {
    |heads| == |lists| == MAX_ORDER + 1 && forall k :: 0 <= k <= MAX_ORDER ==> Linked(memory, heads[k], lists[k])
  }

  /** Every block's size word is the size of its order. */
  ghost predicate Sized(memory: Memory, blocks: set<Block>) {
    forall b :: b in blocks ==> b.addr in memory && memory[b.addr].size == Size(b.order)
  }

  ghost predicate HasPages(memory: Memory, lo: nat, hi: nat) {
    forall a :: lo <= a < hi && a % PAGE_SIZE == 0 ==> a in memory
  }

  ghost predicate Unlisted(lists: FreeLists, x: nat) {
    forall k :: 0 <= k < |lists| ==> x !in lists[k]
  }

  /** A byte of a held block is not the address of any listed block. */
  lemma HeldUnlisted(lists: FreeLists, held: set<Block>, b: Block, x: nat, lo: nat, hi: nat)
    requires Sound(lists, held, lo, hi) && b in held && b.Has(x)
    ensures Unlisted(lists, x)
  {
    forall k: nat | k < |lists|
      ensures x !in lists[k]
    {
      assert x in lists[k] ==> Block(x, k) in FreeBlocks(lists);
    }
  }

  lemma LinkedFrame(before: Memory, after: Memory, head: nat, s: seq<nat>)
    requires Linked(before, head, s)
    requires forall x :: x in s && x in before ==> x in after && after[x].next == before[x].next
    ensures Linked(after, head, s)
  {
    forall i | 0 <= i < |s|
      ensures Node(after, s, i)
    {
      assert Node(before, s, i) && s[i] in s;
    }
  }

  lemma StoreRepresents(heads: seq<nat>, memory: Memory, lists: FreeLists, x: nat, h: Header)
    requires Represents(heads, memory, lists) && Unlisted(lists, x)
    ensures Represents(heads, memory[x := h], lists)
  {
    forall k | 0 <= k <= MAX_ORDER
      ensures Linked(memory[x := h], heads[k], lists[k])
    {
      LinkedFrame(memory, memory[x := h], heads[k], lists[k]);
    }
  }

  lemma PopRepresents(heads: seq<nat>, memory: Memory, lists: FreeLists, k: nat)
    requires Represents(heads, memory, lists) && k <= MAX_ORDER && lists[k] != []
    ensures heads[k] == lists[k][0] && heads[k] in memory
    ensures Represents(heads[k := memory[heads[k]].next], memory, lists[k := lists[k][1..]])
  {
    var s, t := lists[k], lists[k][1..];
    assert Node(memory, s, 0);
    forall i | 0 <= i < |t|
      ensures Node(memory, t, i)
    {
      assert Node(memory, s, i + 1);
    }
  }

  /** Storing the old head in the block's next word and making the block the head pushes it. */
  lemma PushRepresents(heads: seq<nat>, memory: Memory, lists: FreeLists, b: Block, size: nat)
    requires Represents(heads, memory, lists) && b.order <= MAX_ORDER && b.addr != 0 && Unlisted(lists, b.addr)
    ensures Represents(heads[b.order := b.addr], memory[b.addr := Header(heads[b.order], size)], Push(lists, b))
  {
    var after := memory[b.addr := Header(heads[b.order], size)];
    StoreRepresents(heads, memory, lists, b.addr, Header(heads[b.order], size));
    var s := lists[b.order];
    var t := [b.addr] + s;
    forall i | 0 <= i < |t|
      ensures Node(after, t, i)
    {
      assert i > 0 ==> Node(after, s, i - 1);
    }
  }

  /** Bypassing node j from the node before it removes exactly that node. */
  lemma UnlinkRepresents(heads: seq<nat>, memory: Memory, lists: FreeLists, k: nat, j: nat)
    requires Represents(heads, memory, lists) && k <= MAX_ORDER && 0 < j < |lists[k]|
    requires forall i :: 0 <= i <= MAX_ORDER && i != k ==> lists[k][j - 1] !in lists[i]
    requires NoDuplicates(lists[k])
    ensures lists[k][j - 1] in memory && lists[k][j] in memory
    ensures var p := lists[k][j - 1];
            Represents(heads, memory[p := memory[p].(next := memory[lists[k][j]].next)],
                       lists[k := lists[k][..j] + lists[k][j + 1..]])
  {
    var s := lists[k];
    assert Linked(memory, heads[k], s);
    var p := s[j - 1];
    assert Node(memory, s, j) && Node(memory, s, j - 1);
    var after := memory[p := memory[p].(next := memory[s[j]].next)];
    var t := s[..j] + s[j + 1..];
    forall i | 0 <= i < |t|
      ensures Node(after, t, i)
    {
      var o := if i < j then i else i + 1;
      assert t[i] == s[o] && Node(memory, s, o);
    }
    assert Linked(after, heads[k], t);
    forall i | 0 <= i <= MAX_ORDER && i != k
      ensures Linked(after, heads[i], lists[i])
    {
      LinkedFrame(memory, after, heads[i], lists[i]);
    }
  }

  // ----- The whole machine state -----

  /** Head pointers, memory and model agree, while the blocks in held are on no list. */
  ghost predicate Wired(heads: seq<nat>, memory: Memory, p: Pool, held: set<Block>) {
    && Usable(p.start, p.size)
    && HasPages(memory, p.start, p.End())
    && Sound(p.lists, held, p.start, p.End())
    && Represents(heads, memory, p.lists)
    && Sized(memory, FreeBlocks(p.lists) + held)
  }

  /** The wiring does not depend on which held blocks count as live. */
  lemma WiredSameLists(heads: seq<nat>, memory: Memory, p: Pool, q: Pool, held: set<Block>)
    requires Wired(heads, memory, p, held) && q == p.(live := q.live)
    ensures Wired(heads, memory, q, held)
  {
  }

  /** A held block lies in the pool, off address 0, with its header in memory and its size written there. */
  lemma WiredHeld(heads: seq<nat>, memory: Memory, p: Pool, held: set<Block>, b: Block)
    requires Wired(heads, memory, p, held) && b in held
    ensures b.order <= MAX_ORDER && b.addr > 0
    ensures b.addr in memory && memory[b.addr].size == Size(b.order)
  {
    assert Inside(b, p.start, p.End());
  }

  lemma WiredHead(heads: seq<nat>, memory: Memory, p: Pool, held: set<Block>, k: nat)
    requires Wired(heads, memory, p, held) && k <= MAX_ORDER
    ensures |heads| == |p.lists| == MAX_ORDER + 1
    ensures heads[k] == 0 <==> p.lists[k] == []
  {
    assert Linked(memory, heads[k], p.lists[k]);
    assert p.lists[k] == [] || Node(memory, p.lists[k], 0);
  }

  /** head = head->next. */
  lemma WiredPop(heads: seq<nat>, memory: Memory, p: Pool, held: set<Block>, k: nat)
    requires Wired(heads, memory, p, held) && k <= MAX_ORDER && k < |p.lists| && p.lists[k] != []
    ensures |heads| == MAX_ORDER + 1 && heads[k] == p.lists[k][0] && heads[k] in memory
    ensures Block(heads[k], k) !in held
    ensures Wired(heads[k := memory[heads[k]].next], memory, p.(lists := p.lists[k := p.lists[k][1..]]),
                  held + {Block(heads[k], k)})
  {
    PopRepresents(heads, memory, p.lists, k);
    PopSound(p.lists, held, k, p.start, p.End());
    assert Block(heads[k], k) in FreeBlocks(p.lists);
  }

  /** block->next = head; head = block. */
  lemma WiredPush(heads: seq<nat>, memory: Memory, p: Pool, held: set<Block>, b: Block)
    requires Wired(heads, memory, p, held) && b in held
    ensures b.order < |heads| == |p.lists| && b.addr in memory
    ensures Wired(heads[b.order := b.addr], memory[b.addr := memory[b.addr].(next := heads[b.order])],
                  p.(lists := Push(p.lists, b)), held - {b})
  {
    WiredHeld(heads, memory, p, held, b);
    HeldUnlisted(p.lists, held, b, b.addr, p.start, p.End());
    PushRepresents(heads, memory, p.lists, b, memory[b.addr].size);
    PushSound(p.lists, held, b, p.start, p.End());
    assert FreeBlocks(Push(p.lists, b)) + (held - {b}) == FreeBlocks(p.lists) + held;
  }

  /** Writing at the base of a held block, with the size word of whatever block now starts there. */
  lemma StoreKeeps(heads: seq<nat>, memory: Memory, p: Pool, held: set<Block>, held': set<Block>, b: Block, h: Header)
    requires Wired(heads, memory, p, held) && Sound(p.lists, held', p.start, p.End()) && b in held'
    requires h.size == Size(b.order) && b.addr in memory
    requires forall c :: c in held' && c != b ==> c.addr in memory && memory[c.addr].size == Size(c.order)
    ensures Wired(heads, memory[b.addr := h], p, held')
  {
    var after := memory[b.addr := h];
    HeldUnlisted(p.lists, held', b, b.addr, p.start, p.End());
    StoreRepresents(heads, memory, p.lists, b.addr, h);
    forall c | c in FreeBlocks(p.lists) + held'
      ensures c.addr in after && after[c.addr].size == Size(c.order)
    {
      if c != b {
        HeldAddressesDiffer(p.lists, held', b, c, p.start, p.End());
      }
    }
  }

  lemma HeldInside(lists: FreeLists, held: set<Block>, b: Block, lo: nat, hi: nat)
    requires Sound(lists, held, lo, hi) && b in held
    ensures Inside(b, lo, hi)
  {
  }

  lemma HalvesInside(b: Block, lo: nat, hi: nat)
    requires Inside(b, lo, hi) && b.order > 0
    ensures Inside(b.Lower(), lo, hi) && Inside(b.Upper(), lo, hi)
    ensures b.Has(b.Lower().addr) && b.Has(b.Upper().addr) && b.Lower().addr != b.Upper().addr
  {
    assert Size(b.order) == 2 * Size(b.order - 1);
    PageMultiple(b.addr, b.order - 1);
  }

  /** Writing the half size into both halves turns one held block into two. */
  lemma WiredHalve(heads: seq<nat>, memory: Memory, p: Pool, held: set<Block>, b: Block)
    requires Wired(heads, memory, p, held) && b in held && b.order > 0
    ensures var l, u, s := b.Lower(), b.Upper(), Size(b.order - 1);
            && l.addr in memory && u.addr in memory && l.addr != u.addr
            && Wired(heads, memory[l.addr := memory[l.addr].(size := s)][u.addr := memory[u.addr].(size := s)],
                     p, held - {b} + {l, u})
  {
    hide Sound, Represents, Unlisted;
    var l, u, s := b.Lower(), b.Upper(), Size(b.order - 1);
    var held' := held - {b} + {l, u};
    HeldInside(p.lists, held, b, p.start, p.End());
    HalvesInside(b, p.start, p.End());
    SplitHeldSound(p.lists, held, b, p.start, p.End());
    var lists, lo, hi := p.lists, p.start, p.End();
    HeldUnlisted(lists, held, b, l.addr, lo, hi);
    HeldUnlisted(lists, held, b, u.addr, lo, hi);
    var memory1 := memory[l.addr := memory[l.addr].(size := s)];
    StoreRepresents(heads, memory, lists, l.addr, memory1[l.addr]);
    StoreRepresents(heads, memory1, lists, u.addr, memory[u.addr].(size := s));
    var memory2 := memory1[u.addr := memory[u.addr].(size := s)];
    forall c | c in FreeBlocks(lists) + held'
      ensures c.addr in memory2 && memory2[c.addr].size == Size(c.order)
    {
      if c != l && c != u {
        HeldAddressesDiffer(lists, held', l, c, lo, hi);
        HeldAddressesDiffer(lists, held', u, c, lo, hi);
      }
    }
  }

  /** Doubling the size word at the lower of two held buddies turns them into their parent. */
  lemma WiredGrow(heads: seq<nat>, memory: Memory, p: Pool, held: set<Block>, b: Block)
    requires Wired(heads, memory, p, held + {b, b.Buddy()})
    requires b !in held && b.Buddy() !in held && b.order < MAX_ORDER
    ensures var m := b.Parent();
            && m !in held && m.addr in memory && memory[m.addr].size == Size(b.order)
            && Wired(heads, memory[m.addr := memory[m.addr].(size := memory[m.addr].size * 2)], p, held + {m})
  {
    var m, both, lists, lo, hi := b.Parent(), held + {b, b.Buddy()}, p.lists, p.start, p.End();
    WiredHeld(heads, memory, p, both, b);
    WiredHeld(heads, memory, p, both, b.Buddy());
    BuddyIsAdjacent(b);
    MergeHeldSound(lists, both, b, lo, hi);
    TilesMerge(FreeBlocks(lists) + both, b, lo, hi);
    assert both - {b, b.Buddy()} + {m} == held + {m};
    assert Size(m.order) == 2 * Size(b.order);
    StoreKeeps(heads, memory, p, both, held + {m}, m, memory[m.addr].(size := memory[m.addr].size * 2));
  }

  function Before(s: seq<nat>, j: nat): nat
    requires j <= |s|
  {
    if j == 0 then 0 else s[j - 1]
  }

  /** prev is the node before x in s, 0 if x is the head. */
  ghost predicate Precedes(s: seq<nat>, prev: nat, x: nat) {
    exists j :: 0 <= j < |s| && s[j] == x && prev == Before(s, j)
  }

  /** Bypassing the node, at the head or after prev, takes exactly that block off its list. */
  lemma WiredUnlink(heads: seq<nat>, memory: Memory, p: Pool, held: set<Block>, b: Block, prev: nat)
    requires Wired(heads, memory, p, held) && b.order < |p.lists| && Precedes(p.lists[b.order], prev, b.addr)
    ensures |heads| == MAX_ORDER + 1 && b.addr in memory && (prev != 0 ==> prev in memory)
    ensures b in FreeBlocks(p.lists) && b !in held
    ensures var next := memory[b.addr].next;
            var p' := p.(lists := p.lists[b.order := Remove(p.lists[b.order], b.addr)]);
            if prev == 0 then Wired(heads[b.order := next], memory, p', held + {b})
            else Wired(heads, memory[prev := memory[prev].(next := next)], p', held + {b})
  {
    hide Sound, Represents, NoDuplicates, Linked;
    var lists, k, s, lo, hi := p.lists, b.order, p.lists[b.order], p.start, p.End();
    SoundLists(lists, held, k, lo, hi);
    var j :| 0 <= j < |s| && s[j] == b.addr && prev == Before(s, j);
    NodeInMemory(heads, memory, lists, k, j);
    IndexUnique(s, j);
    RemoveAt(s, b.addr, j);
    assert b in FreeBlocks(lists);
    RemoveSound(lists, held, b, lo, hi);
    if j == 0 {
      PopRepresents(heads, memory, lists, k);
      assert s[..0] + s[1..] == s[1..];
    } else {
      NodeInMemory(heads, memory, lists, k, j - 1);
      OnOneList(lists, held, k, prev, lo, hi);
      UnlinkRepresents(heads, memory, lists, k, j);
    }
    var after := lists[k := Remove(s, b.addr)];
    assert FreeBlocks(after) + (held + {b}) == FreeBlocks(lists) + held;
  }

  lemma SoundLists(lists: FreeLists, held: set<Block>, k: nat, lo: nat, hi: nat)
    requires Sound(lists, held, lo, hi) && k < |lists|
    ensures |lists| == MAX_ORDER + 1 && NoDuplicates(lists[k])
  {
  }

  lemma NodeInMemory(heads: seq<nat>, memory: Memory, lists: FreeLists, k: nat, j: nat)
    requires Represents(heads, memory, lists) && k < |lists| && j < |lists[k]|
    ensures |heads| == MAX_ORDER + 1 && lists[k][j] != 0 && lists[k][j] in memory
  {
    assert Linked(memory, heads[k], lists[k]);
    assert Node(memory, lists[k], j);
  }

  lemma IndexUnique(s: seq<nat>, j: nat)
    requires NoDuplicates(s) && j < |s|
    ensures s[j] !in s[..j]
  {
  }

  lemma OnOneList(lists: FreeLists, held: set<Block>, k: nat, x: nat, lo: nat, hi: nat)
    requires Sound(lists, held, lo, hi) && k < |lists| && x in lists[k]
    ensures forall i :: 0 <= i < |lists| && i != k ==> x !in lists[i]
  {
    forall i: nat | i < |lists| && i != k
      ensures x !in lists[i]
    {
      assert Block(x, k) in FreeBlocks(lists);
      assert x in lists[i] ==> Block(x, i) in FreeBlocks(lists);
    }
  }

  /** A client may write anything inside a held block but the size word at its base. */
  lemma WiredClientStore(heads: seq<nat>, memory: Memory, p: Pool, held: set<Block>, b: Block, x: nat, h: Header)
    requires Wired(heads, memory, p, held) && b in held && b.Has(x)
    requires x == b.addr ==> h.size == Size(b.order)
    ensures Wired(heads, memory[x := h], p, held)
  {
    HeldUnlisted(p.lists, held, b, x, p.start, p.End());
    StoreRepresents(heads, memory, p.lists, x, h);
    forall c | c in FreeBlocks(p.lists) + held && c.addr == x
      ensures c == b
    {
      SameBlock(FreeBlocks(p.lists) + held, b, c, x, p.start, p.End());
    }
  }

  // ----- The first wiring -----

  /** While carving, [start, current) is tiled by listed blocks. */
  ghost predicate Carving(heads: seq<nat>, memory: Memory, p: Pool, current: nat, left: nat, target: FreeLists) {
    && Usable(p.start, p.size) && HasPages(memory, p.start, p.End())
    && p.start <= current && current + left == p.start + p.size && current % PAGE_SIZE == 0
    && Sound(p.lists, {}, p.start, current)
    && Represents(heads, memory, p.lists) && Sized(memory, FreeBlocks(p.lists))
    && Carve(p.lists, current, left) == target
  }

  lemma CarvingStarts(heads: seq<nat>, memory: Memory, p: Pool)
    requires Usable(p.start, p.size) && HasPages(memory, p.start, p.End()) && p.lists == NO_BLOCKS
    requires |heads| == MAX_ORDER + 1 && forall k :: 0 <= k < |heads| ==> heads[k] == 0
    ensures Carving(heads, memory, p, p.start, p.size, Carve(NO_BLOCKS, p.start, p.size))
  {
    EmptySound(p.start);
  }

  lemma CarvingInside(p: Pool, current: nat, left: nat)
    requires p.start % PAGE_SIZE == 0 && p.start <= current && current + left == p.start + p.size
    requires current % PAGE_SIZE == 0 && left >= PAGE_SIZE
    ensures current < p.End()
  {
  }

  lemma CarvingHeader(heads: seq<nat>, memory: Memory, p: Pool, current: nat, left: nat, target: FreeLists)
    requires Carving(heads, memory, p, current, left, target) && left >= PAGE_SIZE
    ensures current in memory && |heads| == |p.lists| == MAX_ORDER + 1
  {
    CarvingInside(p, current, left);
  }

  /** Writing the header of the next block and pushing it. */
  lemma CarvingStep(heads: seq<nat>, memory: Memory, p: Pool, current: nat, left: nat, target: FreeLists,
                    k: nat, current': nat, left': nat)
    requires Carving(heads, memory, p, current, left, target) && left >= PAGE_SIZE && k == LargestFit(left)
    requires current' == current + Size(k) && left' == left - Size(k)
    ensures |heads| == |p.lists| == MAX_ORDER + 1
    ensures Carving(heads[k := current], memory[current := Header(heads[k], Size(k))],
                    p.(lists := Push(p.lists, Block(current, k))), current', left', target)
  {
    var b := Block(current, k);
    CarvingHeader(heads, memory, p, current, left, target);
    CarveStepSound(p.lists, p.start, b);
    forall c | c in FreeBlocks(p.lists)
      ensures c.addr != current
    {
      assert c in FreeBlocks(p.lists) + {} && Inside(c, p.start, current);
    }
    forall i: nat | i < |p.lists|
      ensures current !in p.lists[i]
    {
      assert current in p.lists[i] ==> Block(current, i) in FreeBlocks(p.lists);
    }
    PushRepresents(heads, memory, p.lists, b, Size(k));
    PageMultiple(current, k);
  }

  lemma CarvingEnds(heads: seq<nat>, memory: Memory, p: Pool, current: nat, left: nat, target: FreeLists)
    requires Carving(heads, memory, p, current, left, target) && left < PAGE_SIZE
    ensures Wired(heads, memory, p, {}) && p.lists == target
  {
    var lo := p.start;
    assert current == p.End() by {
      assert (current - lo) % PAGE_SIZE == 0;
    }
    assert FreeBlocks(p.lists) + {} == FreeBlocks(p.lists);
  }
}
