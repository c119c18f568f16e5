/** The allocator's state report: a streamed record with the free lists, and two records with the totals. */
module BuddyReports {
  import opened Bits
  import opened Blocks
  import opened BuddyModel
  import opened BuddyAccounting
  import opened Json
  import opened JsonRoundTrip
  import opened JemsModel
  import opened JemsWriters
  import opened LogRecords
  import opened Loggers
  import opened Sinks
  import BuddyAllocators
  import BuddyInvariant
  import BuddyLinks

  // ----- What is reported -----

  /** A machine word passed where a signed one is expected. */
  function Signed(x: nat): (r: int)
    ensures (r - x) % WORD == 0 && (x < WORD ==> r < TOP_POWER && 0 <= r + TOP_POWER)
  {
    if x < TOP_POWER then x else x - WORD
  }

  ghost predicate Plain(f: nat -> seq<Byte>) {
    forall x :: 0 !in f(x)
  }

  /** How an address is formatted: a C string for each. */
  type Format = f: nat -> seq<Byte> | Plain(f) witness _ => []

  /** Different addresses get different texts. */
  ghost predicate Injective(format: Format) {
    forall x, y :: format(x) == format(y) ==> x == y
  }

  function Field(key: string, v: Json): Member {
    Member(Ascii(key), v)
  }

  function AddressItems(blocks: seq<nat>, format: Format): seq<Json> {
    if blocks == [] then [] else AddressItems(blocks[..|blocks| - 1], format) + [Str(format(blocks[|blocks| - 1]))]
  }

  function OrderMembers(k: int, blockSize: int, count: int, bytes: int, addresses: seq<Json>): seq<Member> {
    [Field("order", Int(k)), Field("block_size", Int(blockSize)), Field("free_blocks", Int(count)),
     Field("total_free_memory", Int(bytes)), Field("blocks", Arr(addresses))]
  }

  function FreeBytes(k: nat, n: nat): nat {
    n * Size(k)
  }

  function OrderJson(k: nat, blocks: seq<nat>, format: Format): Json {
    Obj(OrderMembers(k, Size(k), |blocks|, Signed(FreeBytes(k, |blocks|)), AddressItems(blocks, format)))
  }

  function OrderItems(lists: FreeLists, n: nat, format: Format): seq<Json>
    requires n <= |lists|
  {
    if n == 0 then [] else OrderItems(lists, n - 1, format) + [OrderJson(n - 1, lists[n - 1], format)]
  }

  function StateMembers(size: int, pages: int, orders: seq<Json>): seq<Member> {
    [Field("total_memory_size", Int(size)), Field("total_pages", Int(pages)), Field("orders", Arr(orders))]
  }

  function StateJson(size: nat, lists: FreeLists, format: Format): Json {
    Obj(StateMembers(Signed(size), size / PAGE_SIZE, OrderItems(lists, |lists|, format)))
  }

  function TotalText(what: string, n: nat): seq<Byte> {
    Ascii("Total ") + Ascii(what) + Ascii(" memory: ") + Ascii(Natural(n)) + Ascii(" bytes")
  }

  const MANAGER: seq<Byte> := Ascii("memory_manager")

  ghost function StateEntry(p: Pool, format: Format): Entry {
    Entry(LevelName(0), MANAGER, Ascii("Buddy allocator state"), Some(StateJson(p.size, p.lists, format)))
  }

  ghost function TotalEntry(what: string, n: nat): Entry {
    Entry(LevelName(0), MANAGER, TotalText(what, n), None)
  }

  ghost function FreeEntry(p: Pool): Entry {
    TotalEntry("free", FreeTotal(p.lists))
  }

  /** What is live, and the pool's partial page, which no block covers. */
  ghost function AllocatedEntry(p: Pool): Entry {
    TotalEntry("allocated", LiveTotal(p.live) + p.size % PAGE_SIZE)
  }

  ghost function Report(p: Pool, format: Format): seq<Entry> {
    [StateEntry(p, format), FreeEntry(p), AllocatedEntry(p)]
  }

  // ----- The calls that print it -----

  lemma {:induction false} ItemCallsOneMore(items: seq<Json>, v: Json)
    ensures ItemCalls(items + [v]) == ItemCalls(items) + Calls(v)
    decreases |items|
  {
    hide Calls;
    if items == [] {
      assert items + [v] == [v] && [v][1..] == [];
      assert Calls(v) + [] == Calls(v);
    } else {
      assert (items + [v])[0] == items[0] && (items + [v])[1..] == items[1..] + [v];
      ItemCallsOneMore(items[1..], v);
    }
  }

  lemma ReplayItem(w: Writer, items: seq<Json>, v: Json)
    requires Ready(w)
    ensures Replay(w, ItemCalls(items + [v])) == Replay(Replay(w, ItemCalls(items)), Calls(v))
  {
    hide Replay, Calls, ItemCalls;
    ItemCallsOneMore(items, v);
    ReplayAppend(w, ItemCalls(items), Calls(v));
  }

  lemma ReplayNone(w: Writer)
    requires Ready(w)
    ensures Replay(w, ItemCalls([])) == w && Replay(w, MemberCalls([])) == w
  {
  }

  /** Key names are plain: letters and underscores. */
  predicate KeyName(key: string) {
    forall i :: 0 <= i < |key| ==> 'A' <= key[i] <= 'z' && key[i] != '\\'
  }

  ghost function WithNumber(w: Writer, key: string, n: int): (r: Writer)
    requires Ready(w)
    ensures Ready(r)
  {
    Replay(w, [PutString(Ascii(key)), PutInteger(n)])
  }

  /** An array member, closed. */
  ghost function WithArray(w: Writer, key: string, items: seq<Json>): (r: Writer)
    requires Ready(w)
    ensures Ready(r)
  {
    Apply(Replay(Replay(w, [PutString(Ascii(key)), ArrayOpen]), ItemCalls(items)), ArrayClose)
  }

  ghost function WithMembers(w: Writer, ms: seq<Member>): (r: Writer)
    requires Ready(w)
    ensures Ready(r)
  {
    Replay(w, MemberCalls(ms))
  }

  /** A member with a number, and the members after it. */
  lemma NumberFirst(w: Writer, key: string, n: int, rest: seq<Member>)
    requires Ready(w) && KeyName(key)
    ensures WithMembers(w, [Field(key, Int(n))] + rest) == WithMembers(WithNumber(w, key, n), rest)
  {
    hide Replay, Ascii;
    AsciiPlain(key);
    var k, ms := Ascii(key), [Field(key, Int(n))] + rest;
    assert ms[1..] == rest;
    assert MemberCalls(ms) == [PutString(k)] + [PutInteger(n)] + MemberCalls(rest);
    assert [PutString(k)] + [PutInteger(n)] == [PutString(k), PutInteger(n)];
    ReplayAppend(w, [PutString(k), PutInteger(n)], MemberCalls(rest));
  }

  /** A last member with an array. */
  lemma ArrayLast(w: Writer, key: string, items: seq<Json>)
    requires Ready(w) && KeyName(key)
    ensures WithMembers(w, [Field(key, Arr(items))]) == WithArray(w, key, items)
  {
    hide Replay, Apply, ItemCalls, Ascii;
    AsciiPlain(key);
    var k, ms := Ascii(key), [Field(key, Arr(items))];
    assert ms[1..] == [];
    assert MemberCalls(ms) == [PutString(k)] + ([ArrayOpen] + ItemCalls(items) + [ArrayClose]) + [];
    assert MemberCalls(ms) == [PutString(k), ArrayOpen] + (ItemCalls(items) + [ArrayClose]);
    ReplayAppend(w, [PutString(k), ArrayOpen], ItemCalls(items) + [ArrayClose]);
    var o := Replay(w, [PutString(k), ArrayOpen]);
    ReplayAppend(o, ItemCalls(items), [ArrayClose]);
    ReplayOne(Replay(o, ItemCalls(items)), ArrayClose, []);
  }

  lemma ObjectCalls(w: Writer, ms: seq<Member>)
    requires Ready(w)
    ensures Replay(w, Calls(Obj(ms))) == Apply(WithMembers(Apply(w, ObjectOpen), ms), ObjectClose)
  {
    hide Replay, Apply, MemberCalls;
    ReplayBracket(w, ObjectOpen, MemberCalls(ms), ObjectClose);
  }

  /** An object of two numbers and an array. */
  lemma ThreeFields(w: Writer, x: string, y: string, z: string, m: int, n: int, items: seq<Json>)
    requires Ready(w) && KeyName(x) && KeyName(y) && KeyName(z)
    ensures WithMembers(w, [Field(x, Int(m)), Field(y, Int(n)), Field(z, Arr(items))])
            == WithArray(WithNumber(WithNumber(w, x, m), y, n), z, items)
  {
    hide KeyName, WithNumber, WithArray, WithMembers, Field;
    var fy, fz := Field(y, Int(n)), Field(z, Arr(items));
    assert [Field(x, Int(m)), fy, fz] == [Field(x, Int(m))] + [fy, fz] && [fy, fz] == [fy] + [fz];
    NumberFirst(w, x, m, [fy, fz]);
    NumberFirst(WithNumber(w, x, m), y, n, [fz]);
    ArrayLast(WithNumber(WithNumber(w, x, m), y, n), z, items);
  }

  /** Two more numbers before them. */
  lemma FiveFields(w: Writer, u: string, v: string, x: string, y: string, z: string,
                   k: int, l: int, m: int, n: int, items: seq<Json>)
    requires Ready(w) && KeyName(u) && KeyName(v) && KeyName(x) && KeyName(y) && KeyName(z)
    ensures WithMembers(w, [Field(u, Int(k)), Field(v, Int(l)), Field(x, Int(m)), Field(y, Int(n)),
                            Field(z, Arr(items))])
            == WithArray(WithNumber(WithNumber(WithNumber(WithNumber(w, u, k), v, l), x, m), y, n), z, items)
  {
    hide KeyName, WithNumber, WithArray, WithMembers, Field;
    var fu, fv, rest := Field(u, Int(k)), Field(v, Int(l)), [Field(x, Int(m)), Field(y, Int(n)), Field(z, Arr(items))];
    assert [fu, fv, rest[0], rest[1], rest[2]] == [fu] + ([fv] + rest);
    NumberFirst(w, u, k, [fv] + rest);
    NumberFirst(WithNumber(w, u, k), v, l, rest);
    ThreeFields(WithNumber(WithNumber(w, u, k), v, l), x, y, z, m, n, items);
  }

  lemma OrderKeys()
    ensures KeyName("order") && KeyName("block_size") && KeyName("free_blocks")
    ensures KeyName("total_free_memory") && KeyName("blocks")
  {
  }

  lemma StateKeys()
    ensures KeyName("total_memory_size") && KeyName("total_pages") && KeyName("orders")
  {
  }

  /** The object of one order: four numbers and the addresses. */
  lemma OrderCalls(w: Writer, k: int, blockSize: int, count: int, bytes: int, addresses: seq<Json>)
    requires Ready(w)
    ensures var a := WithNumber(Apply(w, ObjectOpen), "order", k);
            var b := WithNumber(a, "block_size", blockSize);
            var c := WithNumber(b, "free_blocks", count);
            var d := WithNumber(c, "total_free_memory", bytes);
            Replay(w, Calls(Obj(OrderMembers(k, blockSize, count, bytes, addresses))))
            == Apply(WithArray(d, "blocks", addresses), ObjectClose)
  {
    hide KeyName, WithNumber, WithArray, WithMembers, Field, Calls, Replay, Apply;
    OrderKeys();
    ObjectCalls(w, OrderMembers(k, blockSize, count, bytes, addresses));
    FiveFields(Apply(w, ObjectOpen), "order", "block_size", "free_blocks", "total_free_memory", "blocks",
               k, blockSize, count, bytes, addresses);
  }

  /** The whole report value: two numbers and the orders. */
  lemma StateCalls(w: Writer, size: int, pages: int, orders: seq<Json>)
    requires Ready(w)
    ensures var a := WithNumber(Apply(w, ObjectOpen), "total_memory_size", size);
            var b := WithNumber(a, "total_pages", pages);
            Replay(w, Calls(Obj(StateMembers(size, pages, orders))))
            == Apply(WithArray(b, "orders", orders), ObjectClose)
  {
    hide KeyName, WithNumber, WithArray, WithMembers, Field, Calls, Replay, Apply;
    StateKeys();
    ObjectCalls(w, StateMembers(size, pages, orders));
    ThreeFields(Apply(w, ObjectOpen), "total_memory_size", "total_pages", "orders", size, pages, orders);
  }

  // ----- The report's nesting and sizes -----

  lemma {:induction false} ItemsBound(items: seq<Json>, d: nat)
    requires forall v :: v in items ==> Depth(v) <= d && Countable(v)
    ensures ItemsDepth(items) <= d && ItemsCountable(items)
  {
    hide Depth, Countable;
    if items != [] {
      assert items[0] in items && forall v :: v in items[1..] ==> v in items;
      ItemsBound(items[1..], d);
    }
  }

  lemma {:induction false} MembersBound(ms: seq<Member>, d: nat)
    requires forall m :: m in ms ==> Depth(m.value) <= d && Countable(m.value)
    ensures MembersDepth(ms) <= d && MembersCountable(ms)
  {
    hide Depth, Countable;
    if ms != [] {
      assert ms[0] in ms && forall m :: m in ms[1..] ==> m in ms;
      MembersBound(ms[1..], d);
    }
  }

  lemma {:induction false} AddressShape(blocks: seq<nat>, format: Format)
    ensures |AddressItems(blocks, format)| == |blocks| && forall v :: v in AddressItems(blocks, format) ==> v.Str?
  {
    if blocks != [] {
      AddressShape(blocks[..|blocks| - 1], format);
    }
  }

  lemma OrderShape(k: nat, blocks: seq<nat>, format: Format)
    requires |blocks| < WORD
    ensures Depth(OrderJson(k, blocks, format)) <= 2 && Countable(OrderJson(k, blocks, format))
  {
    hide Ascii, Size, AddressItems;
    var addresses := AddressItems(blocks, format);
    AddressShape(blocks, format);
    ItemsBound(addresses, 0);
    var ms := OrderMembers(k, Size(k), |blocks|, Signed(FreeBytes(k, |blocks|)), addresses);
    MembersBound(ms, 1);
  }

  lemma {:induction false} OrdersShape(lists: FreeLists, n: nat, format: Format)
    requires n <= |lists| && forall k :: 0 <= k < n ==> |lists[k]| < WORD
    ensures |OrderItems(lists, n, format)| == n
    ensures forall v :: v in OrderItems(lists, n, format) ==> Depth(v) <= 2 && Countable(v)
  {
    hide Depth, Countable, OrderJson;
    if n > 0 {
      OrdersShape(lists, n - 1, format);
      OrderShape(n - 1, lists[n - 1], format);
    }
  }

  lemma StateShape(size: nat, lists: FreeLists, format: Format)
    requires |lists| == MAX_ORDER + 1 && forall k :: 0 <= k < |lists| ==> |lists[k]| < WORD
    ensures Depth(StateJson(size, lists, format)) < STREAM_LEVELS && Countable(StateJson(size, lists, format))
  {
    hide Ascii, OrderItems;
    var orders := OrderItems(lists, |lists|, format);
    OrdersShape(lists, |lists|, format);
    ItemsBound(orders, 2);
    MembersBound(StateMembers(Signed(size), size / PAGE_SIZE, orders), 3);
  }

  lemma {:induction false} ListBelowTotal(lists: FreeLists, k: nat, n: nat)
    requires k < n <= |lists|
    ensures |lists[k]| * PAGE_SIZE <= FreeTotalBelow(lists, n)
  {
    var count, bytes := |lists[n - 1]|, Size(n - 1);
    assert count * PAGE_SIZE <= count * bytes by {
      MulMonotone(count, PAGE_SIZE, bytes);
    }
    if k < n - 1 {
      ListBelowTotal(lists, k, n - 1);
    }
  }

  lemma {:induction false} NaturalLength(n: nat, k: nat)
    requires k > 0 && n < Pow2(k)
    ensures |Natural(n)| <= k
  {
    if n >= 10 {
      NaturalLength(n / 10, k - 1);
    }
  }

  lemma {:induction false} DigitsOnly(n: nat)
    ensures forall i :: 0 <= i < |Natural(n)| ==> '0' <= Natural(n)[i] <= '9'
  {
    if n >= 10 {
      DigitsOnly(n / 10);
    }
  }

  lemma AsciiWithoutNul(s: string)
    requires forall i :: 0 <= i < |s| ==> s[i] != '\0'
    ensures 0 !in Ascii(s)
  {
    forall b | b in Ascii(s)
      ensures b != 0
    {
      var i :| 0 <= i < |s| && Ascii(s)[i] == b;
    }
  }

  lemma TotalTextPlain(what: string, n: nat)
    requires |what| <= 9 && n <= WORD && forall i :: 0 <= i < |what| ==> what[i] != '\0'
    ensures 0 !in TotalText(what, n) && |TotalText(what, n)| <= 100
  {
    hide Ascii;
    AsciiWithoutNul("Total ");
    AsciiWithoutNul(what);
    AsciiWithoutNul(" memory: ");
    AsciiWithoutNul(" bytes");
    DigitsOnly(n);
    AsciiWithoutNul(Natural(n));
    WordSize();
    NaturalLength(n, 65);
  }

  // ----- What the report says -----

  /** The value under a key, as a reader of the object looks it up. */
  function Get(v: Json, key: string): Option<Json> {
    if v.Obj? then Lookup(v.members, Ascii(key)) else None
  }

  lemma LookupLast(ms: seq<Member>, m: Member, key: seq<Byte>)
    ensures Lookup(ms + [m], key) == if m.key == key then Some(m.value) else Lookup(ms, key)
  {
    assert (ms + [m])[..|ms|] == ms;
  }

  /** Three fields whose keys have different lengths. */
  lemma LookupThree(x: Member, y: Member, z: Member)
    requires |x.key| != |y.key| && |x.key| != |z.key| && |y.key| != |z.key|
    ensures Lookup([x, y, z], x.key) == Some(x.value)
    ensures Lookup([x, y, z], y.key) == Some(y.value)
    ensures Lookup([x, y, z], z.key) == Some(z.value)
  {
    assert [x, y, z] == [x, y] + [z] && [x, y] == [x] + [y] && [x] == [] + [x];
    forall key | key == x.key || key == y.key || key == z.key
      ensures Lookup([x, y, z], key)
              == if key == z.key then Some(z.value) else if key == y.key then Some(y.value) else Some(x.value)
    {
      LookupLast([x, y], z, key);
      LookupLast([x], y, key);
      LookupLast([], x, key);
    }
  }

  lemma LookupFive(u: Member, v: Member, x: Member, y: Member, z: Member)
    requires |u.key| != |v.key| && |u.key| != |x.key| && |u.key| != |y.key| && |u.key| != |z.key|
    requires |v.key| != |x.key| && |v.key| != |y.key| && |v.key| != |z.key|
    requires |x.key| != |y.key| && |x.key| != |z.key| && |y.key| != |z.key|
    ensures var ms := [u, v, x, y, z];
            && Lookup(ms, u.key) == Some(u.value) && Lookup(ms, v.key) == Some(v.value)
            && Lookup(ms, x.key) == Some(x.value) && Lookup(ms, y.key) == Some(y.value)
            && Lookup(ms, z.key) == Some(z.value)
  {
    hide Lookup;
    LookupThree(u, v, x);
    var four := [u, v, x] + [y];
    assert [u, v, x, y, z] == four + [z];
    forall key | key == u.key || key == v.key || key == x.key || key == y.key || key == z.key
      ensures Lookup(four + [z], key) == if key == z.key then Some(z.value)
                                         else if key == y.key then Some(y.value) else Lookup([u, v, x], key)
    {
      LookupLast(four, z, key);
      LookupLast([u, v, x], y, key);
    }
  }

  /** The object of an order, read key by key. */
  lemma OrderFields(k: int, blockSize: int, count: int, bytes: int, addresses: seq<Json>)
    ensures var o := Obj(OrderMembers(k, blockSize, count, bytes, addresses));
            && Get(o, "order") == Some(Int(k)) && Get(o, "block_size") == Some(Int(blockSize))
            && Get(o, "free_blocks") == Some(Int(count)) && Get(o, "total_free_memory") == Some(Int(bytes))
            && Get(o, "blocks") == Some(Arr(addresses))
  {
    hide Ascii, Lookup;
    LookupFive(Field("order", Int(k)), Field("block_size", Int(blockSize)), Field("free_blocks", Int(count)),
               Field("total_free_memory", Int(bytes)), Field("blocks", Arr(addresses)));
  }

  lemma {:induction false} AddressAt(blocks: seq<nat>, format: Format, i: nat)
    requires i < |blocks|
    ensures |AddressItems(blocks, format)| == |blocks| && AddressItems(blocks, format)[i] == Str(format(blocks[i]))
    decreases |blocks|
  {
    var n := |blocks| - 1;
    AddressShape(blocks[..n], format);
    if i < n {
      AddressAt(blocks[..n], format, i);
    }
  }

  /** What an order's object says of a list: its order and block size, how many blocks there are and how many bytes,
      and the address of each. */
  lemma OrderReads(k: nat, blocks: seq<nat>, format: Format)
    ensures var o := OrderJson(k, blocks, format);
            && Get(o, "order") == Some(Int(k)) && Get(o, "block_size") == Some(Int(Size(k)))
            && Get(o, "free_blocks") == Some(Int(|blocks|))
            && Get(o, "total_free_memory") == Some(Int(Signed(FreeBytes(k, |blocks|))))
            && FreeBytes(k, |blocks|) == |blocks| * Size(k)
            && Get(o, "blocks").Some? && Get(o, "blocks").value.Arr? && |Get(o, "blocks").value.items| == |blocks|
            && forall i :: 0 <= i < |blocks| ==> Get(o, "blocks").value.items[i] == Str(format(blocks[i]))
  {
    hide Get, Size, Signed, AddressItems, OrderMembers;
    OrderFields(k, Size(k), |blocks|, Signed(FreeBytes(k, |blocks|)), AddressItems(blocks, format));
    AddressShape(blocks, format);
    forall i | 0 <= i < |blocks|
      ensures AddressItems(blocks, format)[i] == Str(format(blocks[i]))
    {
      AddressAt(blocks, format, i);
    }
  }

  lemma {:induction false} OrderAt(lists: FreeLists, n: nat, format: Format, k: nat)
    requires k < n <= |lists|
    ensures |OrderItems(lists, n, format)| == n && OrderItems(lists, n, format)[k] == OrderJson(k, lists[k], format)
  {
    hide OrderJson;
    OrdersLength(lists, n - 1, format);
    if k < n - 1 {
      OrderAt(lists, n - 1, format, k);
    }
  }

  lemma {:induction false} OrdersLength(lists: FreeLists, n: nat, format: Format)
    requires n <= |lists|
    ensures |OrderItems(lists, n, format)| == n
  {
    hide OrderJson;
    if n > 0 {
      OrdersLength(lists, n - 1, format);
    }
  }

  /** The bytes under total_free_memory, over all the reported orders. */
  function ReportedBytes(orders: seq<Json>): int {
    if orders == [] then 0
    else
      var n := |orders| - 1;
      ReportedBytes(orders[..n])
      + match Get(orders[n], "total_free_memory") { case Some(Int(b)) => b case _ => 0 }
  }

  lemma {:induction false} BytesAddUp(lists: FreeLists, n: nat, format: Format)
    requires n <= |lists|
    ensures (ReportedBytes(OrderItems(lists, n, format)) - FreeTotalBelow(lists, n)) % WORD == 0
    ensures FreeTotalBelow(lists, n) < TOP_POWER ==>
              ReportedBytes(OrderItems(lists, n, format)) == FreeTotalBelow(lists, n)
  {
    hide Get, OrderJson, Signed, Size;
    if n > 0 {
      BytesAddUp(lists, n - 1, format);
      OrderReads(n - 1, lists[n - 1], format);
      var items := OrderItems(lists, n - 1, format);
      var o := OrderJson(n - 1, lists[n - 1], format);
      var bytes := |lists[n - 1]| * Size(n - 1);
      ReportedOneMore(items, o, Signed(bytes));
      WordSum(ReportedBytes(items), FreeTotalBelow(lists, n - 1), Signed(bytes), bytes);
      SmallSigned(bytes);
    }
  }

  lemma ReportedOneMore(orders: seq<Json>, o: Json, b: int)
    requires Get(o, "total_free_memory") == Some(Int(b))
    ensures ReportedBytes(orders + [o]) == ReportedBytes(orders) + b
  {
    hide Get;
    assert (orders + [o])[..|orders|] == orders;
  }

  lemma WordSum(a: int, x: int, b: int, y: int)
    requires (a - x) % WORD == 0 && (b - y) % WORD == 0
    ensures (a + b - (x + y)) % WORD == 0
  {
  }

  lemma SmallSigned(x: nat)
    ensures x < TOP_POWER ==> Signed(x) == x
  {
  }

  /** The whole report read key by key: the pool's size and page count, one object for each list, and bytes that
      add up to the free total. */
  lemma StateReads(size: nat, lists: FreeLists, format: Format)
    ensures var s := StateJson(size, lists, format); var orders := Get(s, "orders");
            && Get(s, "total_memory_size") == Some(Int(Signed(size)))
            && Get(s, "total_pages") == Some(Int(size / PAGE_SIZE))
            && orders.Some? && orders.value.Arr? && |orders.value.items| == |lists|
            && (ReportedBytes(orders.value.items) - FreeTotal(lists)) % WORD == 0
            && (FreeTotal(lists) < TOP_POWER ==> ReportedBytes(orders.value.items) == FreeTotal(lists))
            && forall k :: 0 <= k < |lists| ==> orders.value.items[k] == OrderJson(k, lists[k], format)
  {
    hide Ascii, Lookup, Signed, OrderItems, OrderJson, ReportedBytes;
    var orders := OrderItems(lists, |lists|, format);
    LookupThree(Field("total_memory_size", Int(Signed(size))), Field("total_pages", Int(size / PAGE_SIZE)),
                Field("orders", Arr(orders)));
    BytesAddUp(lists, |lists|, format);
    OrdersLength(lists, |lists|, format);
    forall k | 0 <= k < |lists|
      ensures orders[k] == OrderJson(k, lists[k], format)
    {
      OrderAt(lists, |lists|, format, k);
    }
  }

  /** The number in a total's message, in decimal without superfluous zeros. */
  lemma TotalReads(what: string, n: nat) returns (digits: string)
    ensures digits != "" && (forall c :: c in digits ==> IsDigit(c)) && Value(digits) == n
    ensures digits[0] == '0' <==> n == 0
    ensures TotalText(what, n) == Ascii("Total " + what + " memory: " + digits + " bytes")
  {
    digits := Natural(n);
    NaturalValue(n);
    AsciiAppend("Total ", what);
    AsciiAppend("Total " + what, " memory: ");
    AsciiAppend("Total " + what + " memory: ", digits);
    AsciiAppend("Total " + what + " memory: " + digits, " bytes");
  }

  lemma AsciiAppend(s: string, t: string)
    ensures Ascii(s + t) == Ascii(s) + Ascii(t)
  {
  }

  /** The three entries: who reports, at which level, and what. */
  lemma ReportReads(p: Pool, format: Format) returns (freed: string, given: string)
    ensures var es := Report(p, format);
            && |es| == 3
            && (forall e :: e in es ==> e.level == Ascii("DEBUG") && e.component == Ascii("memory_manager"))
            && es[0].message == Ascii("Buddy allocator state") && es[0].data == Some(StateJson(p.size, p.lists, format))
            && es[1].message == Ascii("Total free memory: " + freed + " bytes") && es[1].data == None
            && es[2].message == Ascii("Total allocated memory: " + given + " bytes") && es[2].data == None
    ensures (forall c :: c in freed ==> IsDigit(c)) && Value(freed) == FreeTotal(p.lists)
    ensures (forall c :: c in given ==> IsDigit(c)) && Value(given) == LiveTotal(p.live) + p.size % PAGE_SIZE
  {
    hide Ascii, StateJson, TotalText, LiveTotal, FreeTotal, Value;
    LevelTexts(0);
    freed := TotalReads("free", FreeTotal(p.lists));
    given := TotalReads("allocated", LiveTotal(p.live) + p.size % PAGE_SIZE);
    assert "Total " + "free" + " memory: " == "Total free memory: ";
    assert "Total " + "allocated" + " memory: " == "Total allocated memory: ";
  }

  // ----- What the report determines -----

  lemma {:induction false} AddressesDetermine(a: seq<nat>, b: seq<nat>, format: Format)
    requires Injective(format) && AddressItems(a, format) == AddressItems(b, format)
    ensures a == b
    decreases |a|
  {
    AddressShape(a, format);
    AddressShape(b, format);
    if a != [] {
      var n := |a| - 1;
      var rest, rest' := AddressItems(a[..n], format), AddressItems(b[..n], format);
      var last, last' := Str(format(a[n])), Str(format(b[n]));
      LastSplits(rest, last, rest', last');
      AddressesDetermine(a[..n], b[..n], format);
      assert a == a[..n] + [a[n]] && b == b[..n] + [b[n]];
    }
  }

  lemma LastSplits<T>(s: seq<T>, x: T, t: seq<T>, y: T)
    requires s + [x] == t + [y]
    ensures s == t && x == y
  {
    assert (s + [x])[|s|] == x && (t + [y])[|t|] == y;
    assert (s + [x])[..|s|] == s && (t + [y])[..|t|] == t;
  }

  lemma OrderDetermines(k: nat, a: seq<nat>, b: seq<nat>, format: Format)
    requires Injective(format) && OrderJson(k, a, format) == OrderJson(k, b, format)
    ensures a == b
  {
    hide Ascii, Size, Signed, AddressItems, Injective;
    var ms := OrderJson(k, a, format).members;
    var ms' := OrderJson(k, b, format).members;
    assert ms[4].value == Arr(AddressItems(a, format)) && ms'[4].value == Arr(AddressItems(b, format));
    AddressesDetermine(a, b, format);
  }

  lemma {:induction false} OrdersDetermine(l: FreeLists, m: FreeLists, n: nat, format: Format)
    requires n <= |l| && n <= |m| && Injective(format) && OrderItems(l, n, format) == OrderItems(m, n, format)
    ensures l[..n] == m[..n]
  {
    hide OrderJson, Injective;
    if n > 0 {
      LastSplits(OrderItems(l, n - 1, format), OrderJson(n - 1, l[n - 1], format),
                 OrderItems(m, n - 1, format), OrderJson(n - 1, m[n - 1], format));
      OrdersDetermine(l, m, n - 1, format);
      OrderDetermines(n - 1, l[n - 1], m[n - 1], format);
      assert l[..n] == l[..n - 1] + [l[n - 1]] && m[..n] == m[..n - 1] + [m[n - 1]];
    }
  }

  lemma StateDetermines(size: nat, l: FreeLists, size': nat, m: FreeLists, format: Format)
    requires |l| == |m| && Injective(format) && StateJson(size, l, format) == StateJson(size', m, format)
    ensures l == m
  {
    hide Ascii, Signed, OrderItems, Injective;
    var ms, ms' := StateJson(size, l, format).members, StateJson(size', m, format).members;
    assert ms[2].value == Arr(OrderItems(l, |l|, format)) && ms'[2].value == Arr(OrderItems(m, |m|, format));
    OrdersDetermine(l, m, |l|, format);
    assert l[..|l|] == l && m[..|m|] == m;
  }

  /** Two addresses with one text give two states of the lists with one report. */
  lemma SameTextSameState(size: nat, x: nat, y: nat, format: Format)
    requires format(x) == format(y)
    ensures StateJson(size, NO_BLOCKS[0 := [x]], format) == StateJson(size, NO_BLOCKS[0 := [y]], format)
  {
    hide Ascii, OrderJson, Signed;
    assert [x][..0] == [] && [y][..0] == [];
    assert AddressItems([x], format) == AddressItems([y], format);
    SameTextSameOrder(x, y, format);
    SameTextSameOrders(x, y, |NO_BLOCKS|, format);
  }

  lemma SameTextSameOrder(x: nat, y: nat, format: Format)
    requires AddressItems([x], format) == AddressItems([y], format)
    ensures OrderJson(0, [x], format) == OrderJson(0, [y], format)
  {
  }

  lemma {:induction false} SameTextSameOrders(x: nat, y: nat, n: nat, format: Format)
    requires n <= |NO_BLOCKS| && OrderJson(0, [x], format) == OrderJson(0, [y], format)
    ensures OrderItems(NO_BLOCKS[0 := [x]], n, format) == OrderItems(NO_BLOCKS[0 := [y]], n, format)
  {
    hide OrderJson;
    if n > 0 {
      SameTextSameOrders(x, y, n - 1, format);
    }
  }

  /** The reported value tells the lists apart. */
  ghost predicate TellsLists(size: nat, format: Format) {
    forall l: FreeLists, m: FreeLists ::
      |l| == |m| == MAX_ORDER + 1 && StateJson(size, l, format) == StateJson(size, m, format) ==> l == m
  }

  /** It does so exactly when the format tells the addresses apart. */
  lemma TellsListsIff(size: nat, format: Format)
    ensures TellsLists(size, format) <==> Injective(format)
  {
    hide StateJson;
    if Injective(format) {
      forall l: FreeLists, m: FreeLists
        | |l| == |m| == MAX_ORDER + 1 && StateJson(size, l, format) == StateJson(size, m, format)
        ensures l == m
      {
        StateDetermines(size, l, size, m, format);
      }
    }
    if TellsLists(size, format) {
      forall x: nat, y: nat | format(x) == format(y)
        ensures x == y
      {
        SameTextSameState(size, x, y, format);
        assert NO_BLOCKS[0 := [x]][0] == [x] && NO_BLOCKS[0 := [y]][0] == [y];
      }
    }
  }

  lemma {:induction false} FoundDetermines(es: seq<Entry>, fs: seq<Entry>)
    requires Found(es) == Found(fs)
    ensures es == fs
  {
    if es != [] && fs != [] {
      assert Found(es)[0] == Found(fs)[0] && Found(es)[1..] == Found(es[1..]) && Found(fs)[1..] == Found(fs[1..]);
      FoundDetermines(es[1..], fs[1..]);
      assert es == [es[0]] + es[1..] && fs == [fs[0]] + fs[1..];
    }
  }

  lemma AsciiDetermines(s: string, t: string)
    requires Ascii(s) == Ascii(t)
    requires forall i :: 0 <= i < |s| ==> '0' <= s[i] <= '9'
    requires forall i :: 0 <= i < |t| ==> '0' <= t[i] <= '9'
    ensures s == t
  {
    assert |s| == |Ascii(s)| == |Ascii(t)| == |t|;
    forall i | 0 <= i < |s|
      ensures s[i] == t[i]
    {
      assert Ascii(s)[i] == Ascii(t)[i];
    }
  }

  lemma SameMiddle<T>(a: seq<T>, b: seq<T>, c: seq<T>, d: seq<T>)
    requires a + b + d == a + c + d
    ensures b == c
  {
    assert |b| == |c|;
    assert (a + b + d)[|a|..|a| + |b|] == b && (a + c + d)[|a|..|a| + |c|] == c;
  }

  lemma TotalDetermines(what: string, m: nat, n: nat)
    requires TotalText(what, m) == TotalText(what, n)
    ensures m == n
  {
    hide Ascii, Natural, Value;
    SameMiddle(Ascii("Total ") + Ascii(what) + Ascii(" memory: "), Ascii(Natural(m)), Ascii(Natural(n)),
               Ascii(" bytes"));
    DigitsOnly(m);
    DigitsOnly(n);
    AsciiDetermines(Natural(m), Natural(n));
    NaturalValue(m);
    NaturalValue(n);
  }

  /** From the text of the log: the lists, and so the free total, and the allocated total. */
  lemma ReportDetermines(p: Pool, q: Pool, format: Format)
    requires |p.lists| == |q.lists| && Injective(format) && Log(Report(p, format)) == Log(Report(q, format))
    ensures p.lists == q.lists && LiveTotal(p.live) + p.size % PAGE_SIZE == LiveTotal(q.live) + q.size % PAGE_SIZE
  {
    hide Log, Lines, ReadAll, Found, LevelName, Ascii, StateJson, TotalText, Injective, LiveTotal;
    var es, fs := Report(p, format), Report(q, format);
    LogRoundTrip(es);
    LogRoundTrip(fs);
    FoundDetermines(es, fs);
    assert es[0] == fs[0] && es[2] == fs[2];
    StateDetermines(p.size, p.lists, q.size, q.lists, format);
    TotalDetermines("allocated", LiveTotal(p.live) + p.size % PAGE_SIZE, LiveTotal(q.live) + q.size % PAGE_SIZE);
  }

  /** Whatever pool the records come from has these lists and totals. */
  ghost predicate Determined(p: Pool, format: Format) {
    forall q: Pool :: |q.lists| == MAX_ORDER + 1 && Log(Report(q, format)) == Log(Report(p, format)) ==>
      && q.lists == p.lists && FreeTotal(q.lists) == FreeTotal(p.lists)
      && LiveTotal(q.live) + q.size % PAGE_SIZE == LiveTotal(p.live) + p.size % PAGE_SIZE
  }

  lemma ReportIsDetermined(p: Pool, format: Format)
    requires |p.lists| == MAX_ORDER + 1 && Injective(format)
    ensures Determined(p, format)
  {
    hide Log, Report, Injective, LiveTotal, FreeTotal;
    forall q: Pool | |q.lists| == MAX_ORDER + 1 && Log(Report(q, format)) == Log(Report(p, format))
      ensures q.lists == p.lists && LiveTotal(q.live) + q.size % PAGE_SIZE == LiveTotal(p.live) + p.size % PAGE_SIZE
    {
      ReportDetermines(q, p, format);
    }
  }

  // ----- The report -----

  /** The addresses on one list, head first. */
  method EmitAddresses(a: BuddyAllocators.BuddyAllocator, order: nat, j: Jems, format: Format)
    requires a.Valid() && order <= MAX_ORDER && j.Valid()
    modifies j, j.levels, j.sinks
    ensures j.Valid() && |a.pool.lists| == MAX_ORDER + 1
    ensures j.View() == Replay(old(j.View()), ItemCalls(AddressItems(a.pool.lists[order], format)))
  {
    ghost var s, w := a.pool.lists[order], j.View();
    assert BuddyLinks.Linked(a.memory, a.freeLists[..][order], s);
    hide Apply, Replay, ItemCalls, BuddyInvariant.Invariant, BuddyAllocators.Recorded, BuddyLinks.Wired;
    ReplayNone(w);
    var current := a.freeLists[order];
    ghost var n := 0;
    while current != 0
      invariant j.Valid() && n <= |s| && current == if n < |s| then s[n] else 0
      invariant j.View() == Replay(w, ItemCalls(AddressItems(s[..n], format)))
      decreases |s| - n
    {
      assert BuddyLinks.Node(a.memory, s, n);
      AddressOneMore(w, s, n, format);
      j.String(format(current));
      n := n + 1;
      current := a.memory[current].next;
    }
    assert n == |s| || BuddyLinks.Node(a.memory, s, n);
    assert s[..n] == s;
  }

  lemma AddressOneMore(w: Writer, s: seq<nat>, n: nat, format: Format)
    requires Ready(w) && n < |s|
    ensures Replay(w, ItemCalls(AddressItems(s[..n + 1], format)))
            == Apply(Replay(w, ItemCalls(AddressItems(s[..n], format))), PutString(format(s[n])))
  {
    hide Replay, Apply, ItemCalls;
    assert s[..n + 1][..n] == s[..n];
    var items, v := AddressItems(s[..n], format), Str(format(s[n]));
    ReplayItem(w, items, v);
    ReplayOne(Replay(w, ItemCalls(items)), PutString(format(s[n])), []);
  }

  method EmitOrder(a: BuddyAllocators.BuddyAllocator, order: nat, j: Jems, format: Format)
    requires a.Valid() && order <= MAX_ORDER && j.Valid()
    modifies j, j.levels, j.sinks
    ensures j.Valid() && |a.pool.lists| == MAX_ORDER + 1
    ensures j.View() == Replay(old(j.View()), Calls(OrderJson(order, a.pool.lists[order], format)))
  {
    hide Ascii, Apply, Replay, Calls, Size, Signed, ItemCalls;
    hide BuddyInvariant.Invariant, BuddyAllocators.Recorded, BuddyLinks.Wired;
    var count, bytes, blocks := a.WalkList(order);
    OrderCalls(j.View(), order, Size(order), count, Signed(bytes), AddressItems(blocks, format));
    j.ObjectOpen();
    j.KeyInteger(Ascii("order"), order);
    j.KeyInteger(Ascii("block_size"), Size(order));
    j.KeyInteger(Ascii("free_blocks"), count);
    j.KeyInteger(Ascii("total_free_memory"), Signed(bytes));
    j.KeyArrayOpen(Ascii("blocks"));
    EmitAddresses(a, order, j, format);
    j.ArrayClose();
    j.ObjectClose();
  }

  lemma TwelveLists(a: BuddyAllocators.BuddyAllocator)
    requires a.Valid()
    ensures |a.pool.lists| == MAX_ORDER + 1 && a.poolSize == a.pool.size <= WORD
  {
  }

  lemma NoOrders(w: Writer, lists: FreeLists, format: Format)
    requires Ready(w)
    ensures Replay(w, ItemCalls(OrderItems(lists, 0, format))) == w
  {
    ReplayNone(w);
  }

  lemma OrdersOneMore(w: Writer, lists: FreeLists, n: nat, format: Format)
    requires Ready(w) && n < |lists|
    ensures Replay(w, ItemCalls(OrderItems(lists, n + 1, format)))
            == Replay(Replay(w, ItemCalls(OrderItems(lists, n, format))), Calls(OrderJson(n, lists[n], format)))
  {
    hide Replay, ItemCalls, Calls, OrderJson;
    ReplayItem(w, OrderItems(lists, n, format), OrderJson(n, lists[n], format));
  }

  method EmitOrders(a: BuddyAllocators.BuddyAllocator, j: Jems, format: Format)
    requires a.Valid() && j.Valid()
    modifies j, j.levels, j.sinks
    ensures j.Valid()
    ensures j.View() == Replay(old(j.View()), ItemCalls(OrderItems(a.pool.lists, |a.pool.lists|, format)))
  {
    hide Apply, Replay, Calls, ItemCalls, OrderJson, OrderItems, BuddyAllocators.BuddyAllocator.Valid;
    TwelveLists(a);
    ghost var lists, w := a.pool.lists, j.View();
    NoOrders(w, lists, format);
    var order := 0;
    while order <= MAX_ORDER
      invariant j.Valid() && order <= MAX_ORDER + 1
      invariant j.View() == Replay(w, ItemCalls(OrderItems(lists, order, format)))
    {
      OrdersOneMore(w, lists, order, format);
      EmitOrder(a, order, j, format);
      order := order + 1;
    }
  }

  method EmitState(a: BuddyAllocators.BuddyAllocator, j: Jems, format: Format)
    requires a.Valid() && j.Valid()
    modifies j, j.levels, j.sinks
    ensures j.Valid()
    ensures j.View() == Replay(old(j.View()), Calls(StateJson(a.poolSize, a.pool.lists, format)))
  {
    hide Ascii, Apply, Replay, Calls, Signed, ItemCalls, OrderItems;
    hide BuddyInvariant.Invariant, BuddyAllocators.Recorded, BuddyLinks.Wired;
    var size, pages := Signed(a.poolSize), a.poolSize / PAGE_SIZE;
    StateCalls(j.View(), size, pages, OrderItems(a.pool.lists, |a.pool.lists|, format));
    j.ObjectOpen();
    j.KeyInteger(Ascii("total_memory_size"), size);
    j.KeyInteger(Ascii("total_pages"), pages);
    j.KeyArrayOpen(Ascii("orders"));
    EmitOrders(a, j, format);
    j.ArrayClose();
    j.ObjectClose();
  }

  lemma StateWords(p: Pool)
    requires |p.lists| == MAX_ORDER + 1 && p.size <= WORD
    requires FreeTotal(p.lists) + LiveTotal(p.live) == p.size - p.size % PAGE_SIZE
    ensures forall k :: 0 <= k < |p.lists| ==> |p.lists[k]| < WORD
    ensures FreeTotal(p.lists) <= WORD && LiveTotal(p.live) + p.size % PAGE_SIZE <= WORD
  {
    forall k: nat | k < |p.lists|
      ensures |p.lists[k]| < WORD
    {
      ListBelowTotal(p.lists, k, |p.lists|);
    }
  }

  /** Stream the free lists as one JSON value. */
  method StreamState(a: BuddyAllocators.BuddyAllocator, logger: Logger, format: Format)
    requires a.Valid()
    modifies logger.sinks
    ensures logger.Sent(Print(StateJson(a.pool.size, a.pool.lists, format)))
  {
    hide Apply, Print, Relayed, Replay, Calls, StateJson, Depth, Countable, Parse, BuddyInvariant.Invariant;
    TwelveLists(a);
    StateFits(a.pool, a.history, format);
    ghost var v := StateJson(a.pool.size, a.pool.lists, format);
    var levels := new Level[STREAM_LEVELS];
    ghost var w := Writer(levels[..], 0, "");
    var j := new Jems(levels, logger.sinks);
    EmitState(a, j, format);
    StreamRoundTrip(w, v);
    PrintPrintable(v);
    RelayedWhole(Print(v));
    assert j.Delivered();
  }

  lemma StateFits(p: Pool, es: seq<Event>, format: Format)
    requires BuddyInvariant.Invariant(p) && BuddyAllocators.Recorded(p, es)
    ensures Depth(StateJson(p.size, p.lists, format)) < STREAM_LEVELS && Countable(StateJson(p.size, p.lists, format))
  {
    hide Depth, Countable, StateJson, BuddyInvariant.Invariant, BuddyAllocators.Recorded;
    TotalsFit(p, es);
    StateShape(p.size, p.lists, format);
  }

  lemma TotalsFit(p: Pool, es: seq<Event>)
    requires BuddyInvariant.Invariant(p) && BuddyAllocators.Recorded(p, es)
    ensures |p.lists| == MAX_ORDER + 1 && forall k :: 0 <= k < |p.lists| ==> |p.lists[k]| < WORD
    ensures FreeTotal(p.lists) <= WORD && LiveTotal(p.live) + p.size % PAGE_SIZE <= WORD
  {
    hide BuddyAllocators.Recorded;
    BuddyAllocators.RecordedBytes(p, es);
    BuddyInvariant.InvariantShape(p);
    StateWords(p);
  }

  /** The fixed texts are C strings, and their opening fits the buffer. */
  lemma OpeningFits()
    ensures 0 !in MANAGER && |MANAGER| == 14 && 0 !in Ascii("Buddy allocator state")
    ensures |Opening(Entry(LevelName(0), MANAGER, Ascii("Buddy allocator state"), None))| < MAX_LOG_MESSAGE_SIZE
  {
    hide Ascii, LevelName, PrintMembers, Quote;
    AsciiWithoutNul("memory_manager");
    AsciiWithoutNul("Buddy allocator state");
    RecordLength(0, MANAGER, Ascii("Buddy allocator state"));
    FieldNames();
  }

  lemma NewlineTrimmed(s: seq<Byte>)
    ensures Trimmed(s + [10]) == s
  {
  }

  /** A total's message loses its newline and fits the buffer. */
  lemma TotalFits(what: string, n: nat)
    requires |what| <= 9 && n <= WORD && forall i :: 0 <= i < |what| ==> what[i] != '\0'
    ensures var message := TotalText(what, n) + [10];
            && 0 !in message && |message| < MAX_LOG_MESSAGE_SIZE
            && Entry(LevelName(0), MANAGER, Trimmed(message), None) == TotalEntry(what, n)
            && |Record(TotalEntry(what, n))| < MAX_LOG_MESSAGE_SIZE
  {
    hide Record, LevelName, TotalText, Ascii, Trimmed, Opening;
    OpeningFits();
    TotalTextPlain(what, n);
    NewlineTrimmed(TotalText(what, n));
    RecordLength(0, MANAGER, TotalText(what, n));
  }

  lemma ThreeRecords(a: Entry, b: Entry, c: Entry)
    ensures Log([a, b, c]) == Record(a) + (Record(b) + Record(c))
  {
    hide Record;
    assert [a, b, c][1..] == [b, c] && [b, c][1..] == [c] && [c][1..] == [];
    assert Log([c]) == Record(c) + "" == Record(c);
    assert Log([b, c]) == Record(b) + Log([c]);
  }

  /** Each sink receives three records, from which the viewer reads the three entries back. When different
      addresses get different texts, no pool with other lists or another allocated total gives these records. */
  method DebugState(a: BuddyAllocators.BuddyAllocator, logger: Logger, format: Format)
    requires a.Valid()
    modifies logger.sinks
    ensures logger.Sent(Log(Report(a.pool, format)))
    ensures ReadAll(Lines(Log(Report(a.pool, format)))) == Found(Report(a.pool, format))
    ensures Injective(format) ==> Determined(a.pool, format)
  {
    hide Record, Log, StateEntry, FreeEntry, AllocatedEntry, Injective, Determined,
         BuddyAllocators.BuddyAllocator.Valid;
    ghost var es := Report(a.pool, format);
    if Injective(format) {
      TwelveLists(a);
      ReportIsDetermined(a.pool, format);
    }
    LogRoundTrip(es);
    ThreeRecords(es[0], es[1], es[2]);
    ReportState(a, logger, format);
    ReportTotals(a, logger);
    forall i | 0 <= i < logger.sinks.Length
      ensures logger.sinks[i] == old(logger.sinks[i]) + Log(es)
    {
      Append(old(logger.sinks[i]), Record(es[0]), Record(es[1]) + Record(es[2]));
    }
  }

  /** The streamed record. */
  method ReportState(a: BuddyAllocators.BuddyAllocator, logger: Logger, format: Format)
    requires a.Valid()
    modifies logger.sinks
    ensures logger.Sent(Record(StateEntry(a.pool, format)))
  {
    hide Record, Opening, Print, Ascii, LevelName, StateJson, BuddyAllocators.BuddyAllocator.Valid;
    ghost var e, v := StateEntry(a.pool, format), StateJson(a.pool.size, a.pool.lists, format);
    OpeningFits();
    logger.LogStreamStart(0, MANAGER, Ascii("Buddy allocator state"));
    StreamState(a, logger, format);
    logger.LogStreamEnd();
    OpeningIgnoresData(e);
    SplitRecord(e, v);
    Logger.ThreeParts(Opening(e), Print(v));
    forall i | 0 <= i < logger.sinks.Length
      ensures logger.sinks[i] == old(logger.sinks[i]) + Record(e)
    {
      Logger.AppendThree(old(logger.sinks[i]), Opening(e), Print(v), "}\n");
    }
  }

  method LogTotal(logger: Logger, what: string, n: nat)
    requires |what| <= 9 && n <= WORD && forall i :: 0 <= i < |what| ==> what[i] != '\0'
    modifies logger.sinks
    ensures logger.Sent(Record(TotalEntry(what, n)))
  {
    hide Record, Ascii, LevelName, TotalText;
    OpeningFits();
    TotalFits(what, n);
    logger.LogMessage(0, MANAGER, TotalText(what, n) + [10]);
  }

  /** The two totals. */
  method ReportTotals(a: BuddyAllocators.BuddyAllocator, logger: Logger)
    requires a.Valid()
    modifies logger.sinks
    ensures logger.Sent(Record(FreeEntry(a.pool)) + Record(AllocatedEntry(a.pool)))
  {
    hide Record, TotalEntry, LiveTotal, FreeTotal, BuddyInvariant.Invariant, BuddyAllocators.Recorded, BuddyLinks.Wired;
    TotalsFit(a.pool, a.history);
    var total := a.TotalFree();
    LogTotal(logger, "free", total);
    LogTotal(logger, "allocated", a.poolSize - total);
    forall i | 0 <= i < logger.sinks.Length
      ensures logger.sinks[i]
              == old(logger.sinks[i]) + (Record(FreeEntry(a.pool)) + Record(AllocatedEntry(a.pool)))
    {
      Append(old(logger.sinks[i]), Record(FreeEntry(a.pool)), Record(AllocatedEntry(a.pool)));
    }
  }
}
