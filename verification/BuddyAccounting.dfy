/** Bytes are conserved: what is free and what is live always add up to the pool's whole pages. */
module BuddyAccounting {
  import opened Blocks
  import opened BuddyModel
  import opened BuddyInvariant
  import opened BuddyInit

  /** Bytes on the first n lists. */
  function FreeTotalBelow(lists: FreeLists, n: nat): nat
    requires n <= |lists|
  {
    if n == 0 then 0 else FreeTotalBelow(lists, n - 1) + |lists[n - 1]| * Size(n - 1)
  }

  function FreeTotal(lists: FreeLists): nat {
    FreeTotalBelow(lists, |lists|)
  }

  ghost function LiveTotal(live: map<nat, nat>): nat
    decreases |live|
  {
    if live == map[] then 0
    else
      var a :| a in live;
      Size(live[a]) + LiveTotal(live - {a})
  }

  lemma {:induction false} LiveTotalDrop(live: map<nat, nat>, a: nat)
    requires a in live
    ensures LiveTotal(live) == Size(live[a]) + LiveTotal(live - {a})
    decreases |live|
  {
    var b :| b in live && LiveTotal(live) == Size(live[b]) + LiveTotal(live - {b});
    if a != b {
      LiveTotalDrop(live - {b}, a);
      LiveTotalDrop(live - {a}, b);
      assert live - {b} - {a} == live - {a} - {b};
    }
  }

  lemma LiveTotalAdd(live: map<nat, nat>, a: nat, k: nat)
    requires a !in live
    ensures LiveTotal(live[a := k]) == Size(k) + LiveTotal(live)
  {
    LiveTotalDrop(live[a := k], a);
    assert live[a := k] - {a} == live;
  }

  // ----- How list updates change the free total -----

  lemma {:induction false} TotalBelowUpdate(lists: FreeLists, k: nat, s: seq<nat>, n: nat)
    requires k < |lists| && n <= |lists|
    ensures FreeTotalBelow(lists[k := s], n)
            == FreeTotalBelow(lists, n) + if k < n then |s| * Size(k) - |lists[k]| * Size(k) else 0
  {
    if n > 0 {
      TotalBelowUpdate(lists, k, s, n - 1);
    }
  }

  lemma TotalLonger(lists: FreeLists, k: nat, s: seq<nat>)
    requires k < |lists| && |s| == |lists[k]| + 1
    ensures FreeTotal(lists[k := s]) == FreeTotal(lists) + Size(k)
  {
    TotalBelowUpdate(lists, k, s, |lists|);
    assert |s| * Size(k) == |lists[k]| * Size(k) + Size(k);
  }

  lemma TotalShorter(lists: FreeLists, k: nat, s: seq<nat>)
    requires k < |lists| && |s| + 1 == |lists[k]|
    ensures FreeTotal(lists[k := s]) + Size(k) == FreeTotal(lists)
  {
    TotalBelowUpdate(lists, k, s, |lists|);
    assert |lists[k]| * Size(k) == |s| * Size(k) + Size(k);
  }

  lemma {:induction false} SplitDownTotal(lists: FreeLists, i: nat, k: nat)
    requires k <= i < |lists| && lists[i] != []
    ensures FreeTotal(SplitDown(lists, i, k)) == FreeTotal(lists)
    decreases i
  {
    if k < i {
      var b := Block(lists[i][0], i);
      var popped := lists[i := lists[i][1..]];
      TotalShorter(lists, i, lists[i][1..]);
      TotalLonger(popped, i - 1, [b.Upper().addr] + popped[i - 1]);
      var pushed := Push(popped, b.Upper());
      TotalLonger(pushed, i - 1, [b.Lower().addr] + pushed[i - 1]);
      assert Size(i) == 2 * Size(i - 1);
      SplitDownTotal(SplitHead(lists, i), i - 1, k);
    }
  }

  lemma {:induction false} RemoveLength<T>(s: seq<T>, x: T)
    requires x in s
    ensures |Remove(s, x)| + 1 == |s|
  {
    if s[0] != x {
      RemoveLength(s[1..], x);
    }
  }

  lemma {:induction false} CoalesceTotal(lists: FreeLists, b: Block)
    requires |lists| == MAX_ORDER + 1 && b.order <= MAX_ORDER
    ensures var (rest, m) := Coalesce(lists, b);
            FreeTotal(rest) + Size(m.order) == FreeTotal(lists) + Size(b.order)
    decreases MAX_ORDER - b.order
  {
    var u := b.Buddy().addr;
    if b.order < MAX_ORDER && u in lists[b.order] {
      var s := Remove(lists[b.order], u);
      RemoveLength(lists[b.order], u);
      TotalShorter(lists, b.order, s);
      assert Size(b.order + 1) == 2 * Size(b.order);
      CoalesceTotal(lists[b.order := s], b.Parent());
    }
  }

  lemma {:induction false} CarveTotal(lists: FreeLists, cur: nat, remaining: nat)
    requires |lists| == MAX_ORDER + 1
    ensures FreeTotal(Carve(lists, cur, remaining)) == FreeTotal(lists) + remaining - remaining % PAGE_SIZE
    decreases remaining
  {
    if remaining >= PAGE_SIZE {
      var b := Block(cur, LargestFit(remaining));
      TotalLonger(lists, b.order, [cur] + lists[b.order]);
      CarveTotal(Push(lists, b), b.End(), remaining - Size(b.order));
      LeftOver(remaining, b.order);
    }
  }

  lemma EmptyTotal(n: nat)
    requires n <= |NO_BLOCKS|
    ensures FreeTotalBelow(NO_BLOCKS, n) == 0
  {
  }

  // ----- Conservation -----

  lemma AllocateTotal(p: Pool, size: nat)
    requires Invariant(p)
    ensures var (q, a) := Allocate(p, size);
            && FreeTotal(q.lists) + LiveTotal(q.live) == FreeTotal(p.lists) + LiveTotal(p.live)
            && FreeTotal(q.lists) + (if a == 0 then 0 else Size(OrderFor(size))) == FreeTotal(p.lists)
  {
    AllocateKeeps(p, size);
    var k := OrderFor(size);
    var i := FirstFit(p.lists, k);
    if i <= MAX_ORDER {
      SplitDownTotal(p.lists, i, k);
      var split := SplitDown(p.lists, i, k);
      TotalShorter(split, k, split[k][1..]);
      LiveTotalAdd(p.live, split[k][0], k);
    }
  }

  lemma FreeKeepsTotal(p: Pool, a: nat)
    requires Invariant(p) && a in p.live
    ensures Shaped(p)
    ensures FreeTotal(Free(p, a).lists) + LiveTotal(Free(p, a).live) == FreeTotal(p.lists) + LiveTotal(p.live)
  {
    InvariantShape(p);
    var b := Block(a, p.live[a]);
    CoalesceTotal(p.lists, b);
    var (rest, m) := Coalesce(p.lists, b);
    TotalLonger(rest, m.order, [m.addr] + rest[m.order]);
    LiveTotalDrop(p.live, a);
  }

  lemma {:induction false} RunTotal(p: Pool, es: seq<Event>)
    requires Invariant(p) && CanRun(p, es)
    ensures FreeTotal(Run(p, es).lists) + LiveTotal(Run(p, es).live) == FreeTotal(p.lists) + LiveTotal(p.live)
    decreases |es|
  {
    if es != [] {
      var n := |es| - 1;
      var q := Run(p, es[..n]);
      RunTotal(p, es[..n]);
      RunKeeps(p, es[..n]);
      match es[n]
      case Alloc(size) => AllocateTotal(q, size);
      case Release(a) => FreeKeepsTotal(q, a);
    }
  }

  /** In every reachable state the free total and the live total add up to the pool's whole pages. */
  lemma BytesConserved(start: nat, size: nat, es: seq<Event>)
    requires Usable(start, size) && CanRun(Init(start, size), es)
    ensures var p := Run(Init(start, size), es);
            FreeTotal(p.lists) + LiveTotal(p.live) == size - size % PAGE_SIZE
  {
    InitInvariant(start, size);
    RunTotal(Init(start, size), es);
    CarveTotal(NO_BLOCKS, start, size);
    EmptyTotal(|NO_BLOCKS|);
  }
}
