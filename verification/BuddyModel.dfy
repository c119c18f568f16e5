/** The allocator's free lists as sequences of block addresses, and what each operation does to them. */
module BuddyModel {
  import opened Blocks

  /** Block addresses on each list, head first. */
  type FreeLists = seq<seq<nat>>

  /** start and size are the struct's fields; live maps each address handed out to its order. */
  datatype Pool = Pool(start: nat, size: nat, lists: FreeLists, live: map<nat, nat>) {
    /** First byte after the pool's whole pages. */
    function End(): nat {
      start + (size - size % PAGE_SIZE)
    }
  }

  // ----- Orders -----

  function OrderFrom(size: nat, k: nat): (r: nat)
    requires k <= MAX_ORDER
    requires k > 0 ==> Size(k - 1) < size
    ensures r <= MAX_ORDER
    ensures r > 0 ==> Size(r - 1) < size
    ensures r < MAX_ORDER ==> size <= Size(r)
    decreases MAX_ORDER - k
  {
    if k < MAX_ORDER && Size(k) < size then OrderFrom(size, k + 1) else k
  }

  /** The least order whose blocks cover the request, MAX_ORDER if none does. */
  function OrderFor(size: nat): (r: nat)
    ensures r <= MAX_ORDER
    ensures r > 0 ==> Size(r - 1) < size
    ensures r < MAX_ORDER ==> size <= Size(r)
  {
    OrderFrom(size, 0)
  }

  ghost predicate IsLargestFit(r: nat, f: nat) {
    f <= MAX_ORDER && Size(f) <= r && (f < MAX_ORDER ==> r < Size(f + 1))
  }

  lemma {:induction false} FitExists(r: nat, k: nat)
    requires PAGE_SIZE <= r && k <= MAX_ORDER && (k < MAX_ORDER ==> r < Size(k + 1))
    ensures exists f :: IsLargestFit(r, f)
  {
    if k > 0 && Size(k) > r {
      FitExists(r, k - 1);
    } else {
      assert IsLargestFit(r, k);
    }
  }

  lemma FitUnique(r: nat, f: nat, g: nat)
    requires IsLargestFit(r, f) && IsLargestFit(r, g)
    ensures f == g
  {
    if f < g {
      SizeMonotone(f + 1, g);
    } else if g < f {
      SizeMonotone(g + 1, f);
    }
  }

  /** The largest order whose blocks fit in r bytes. */
  ghost function LargestFit(r: nat): (f: nat)
    requires PAGE_SIZE <= r
    ensures IsLargestFit(r, f)
  {
    FitExists(r, MAX_ORDER);
    var f :| IsLargestFit(r, f);
    f
  }

  // ----- Operations on the lists -----

  function Remove<T(==)>(s: seq<T>, x: T): seq<T> {
    if s == [] then [] else if s[0] == x then s[1..] else [s[0]] + Remove(s[1..], x)
  }

  function Push(lists: FreeLists, b: Block): FreeLists
    requires b.order < |lists|
  {
    lists[b.order := [b.addr] + lists[b.order]]
  }

  /** Replace the head block of list i by its two halves, lower half first, on list i - 1. */
  function SplitHead(lists: FreeLists, i: nat): FreeLists
    requires i < |lists|
  {
    if i == 0 || lists[i] == [] then lists
    else
      var b := Block(lists[i][0], i);
      Push(Push(lists[i := lists[i][1..]], b.Upper()), b.Lower())
  }

  function SplitDown(lists: FreeLists, i: nat, k: nat): (r: FreeLists)
    requires k <= i < |lists| && lists[i] != []
    ensures |r| == |lists| && r[k] != []
    decreases i
  {
    if i == k then lists else SplitDown(SplitHead(lists, i), i - 1, k)
  }

  /** Index of the first non-empty list from k up; the number of lists if there is none. */
  function FirstFit(lists: FreeLists, k: nat): (i: nat)
    requires k <= |lists|
    ensures k <= i <= |lists|
    ensures forall j :: k <= j < i ==> lists[j] == []
    ensures i < |lists| ==> lists[i] != []
    decreases |lists| - k
  {
    if k == |lists| || lists[k] != [] then k else FirstFit(lists, k + 1)
  }

  /** Merge b with its buddy for as long as the buddy is on the list of b's order. */
  function Coalesce(lists: FreeLists, b: Block): (r: (FreeLists, Block))
    requires |lists| == MAX_ORDER + 1 && b.order <= MAX_ORDER
    ensures |r.0| == |lists| && b.order <= r.1.order <= MAX_ORDER
    decreases MAX_ORDER - b.order
  {
    var buddy := b.Buddy();
    if b.order < MAX_ORDER && buddy.addr in lists[b.order] then
      Coalesce(lists[b.order := Remove(lists[b.order], buddy.addr)], b.Parent())
    else (lists, b)
  }

  lemma CoalesceStep(lists: FreeLists, b: Block, after: FreeLists)
    requires |lists| == MAX_ORDER + 1 && b.order < MAX_ORDER && b.Buddy().addr in lists[b.order]
    requires after == lists[b.order := Remove(lists[b.order], b.Buddy().addr)]
    ensures Coalesce(after, b.Parent()) == Coalesce(lists, b)
  {
  }

  lemma CoalesceStops(lists: FreeLists, b: Block)
    requires |lists| == MAX_ORDER + 1 && b.order <= MAX_ORDER
    requires b.order == MAX_ORDER || b.Buddy().addr !in lists[b.order]
    ensures Coalesce(lists, b) == (lists, b)
  {
  }

  /** Carve the remaining bytes from cur on, largest block first. */
  ghost function Carve(lists: FreeLists, cur: nat, remaining: nat): (r: FreeLists)
    requires |lists| == MAX_ORDER + 1
    ensures |r| == |lists|
    decreases remaining
  {
    if remaining < PAGE_SIZE then lists
    else
      var b := Block(cur, LargestFit(remaining));
      Carve(Push(lists, b), b.End(), remaining - Size(b.order))
  }

  // ----- Whole operations and runs -----

  const NO_BLOCKS: FreeLists := [[], [], [], [], [], [], [], [], [], [], [], []]

  ghost predicate Shaped(p: Pool) {
    |p.lists| == MAX_ORDER + 1 && forall a :: a in p.live ==> p.live[a] <= MAX_ORDER
  }

  ghost function Init(start: nat, size: nat): Pool {
    Pool(start, size, Carve(NO_BLOCKS, start, size), map[])
  }

  /** The state after a request, and the address returned: 0 if there is no block. */
  function Allocate(p: Pool, size: nat): (Pool, nat)
    requires |p.lists| == MAX_ORDER + 1
  {
    var k := OrderFor(size);
    var i := FirstFit(p.lists, k);
    if i > MAX_ORDER then (p, 0)
    else
      var split := SplitDown(p.lists, i, k);
      var a := split[k][0];
      (p.(lists := split[k := split[k][1..]], live := p.live[a := k]), a)
  }

  function Free(p: Pool, a: nat): Pool
    requires |p.lists| == MAX_ORDER + 1 && a in p.live && p.live[a] <= MAX_ORDER
  {
    var (rest, merged) := Coalesce(p.lists, Block(a, p.live[a]));
    p.(lists := Push(rest, merged), live := p.live - {a})
  }

  datatype Event = Alloc(size: nat) | Release(addr: nat)

  /** Clients release only what is live. */
  ghost predicate CanStep(p: Pool, e: Event) {
    Shaped(p) && (e.Release? ==> e.addr in p.live)
  }

  ghost function Step(p: Pool, e: Event): Pool
    requires CanStep(p, e)
  {
    match e
    case Alloc(size) => Allocate(p, size).0
    case Release(a) => Free(p, a)
  }

  /** The events can happen in this order, starting from p. */
  ghost predicate CanRun(p: Pool, es: seq<Event>)
    decreases |es|, 0
  {
    es == [] || (var n := |es| - 1; CanRun(p, es[..n]) && CanStep(Run(p, es[..n]), es[n]))
  }

  ghost function Run(p: Pool, es: seq<Event>): Pool
    requires CanRun(p, es)
    decreases |es|, 1
  {
    if es == [] then p else var n := |es| - 1; Step(Run(p, es[..n]), es[n])
  }

  lemma RunOneMore(p: Pool, es: seq<Event>, e: Event)
    requires CanRun(p, es) && CanStep(Run(p, es), e)
    ensures CanRun(p, es + [e]) && Run(p, es + [e]) == Step(Run(p, es), e)
  {
    var all := es + [e];
    assert all[..|all| - 1] == es;
  }
}
