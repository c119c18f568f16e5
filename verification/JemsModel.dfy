/** The streaming writer's state as a value, what each call does to it, and what call sequences print. */
module JemsModel {
  import opened Bits
  import opened Json
  import opened JsonRoundTrip

  datatype Level = Level(itemCount: nat, isObject: bool)

  /** levels is the caller's array; curr indexes the open one; out is what went through the writer function. */
  datatype Writer = Writer(levels: seq<Level>, curr: nat, out: string)

  datatype Call =
    | ObjectOpen | ObjectClose | ArrayOpen | ArrayClose
    | PutInteger(n: int) | PutString(s: seq<Byte>) | PutBytes(bytes: seq<Byte>)
    | PutBool(b: bool) | PutNull | PutLiteral(text: string)

  ghost predicate Ready(w: Writer) {
    w.curr < |w.levels|
  }

  /** The bytes of a C string: those before the first NUL. */
  function CString(s: seq<Byte>): seq<Byte> {
    if s == [] || s[0] == 0 then [] else [s[0]] + CString(s[1..])
  }

  // ----- Single calls -----

  function Emit(w: Writer, s: string): Writer {
    w.(out := w.out + s)
  }

  /** What must be written before the next item of the open level. */
  function Separator(l: Level): string {
    if l.itemCount == 0 then "" else if l.isObject && l.itemCount % 2 == 1 then ":" else ","
  }

  /** Counters are machine words. */
  function Counted(l: Level, n: nat): Level {
    l.(itemCount := (l.itemCount + n) % WORD)
  }

  function Commify(w: Writer): Writer
    requires w.curr < |w.levels|
  {
    var l := w.levels[w.curr];
    Writer(w.levels[w.curr := Counted(l, 1)], w.curr, w.out + Separator(l))
  }

  /** Nothing happens at the last level. */
  function PushLevel(w: Writer, isObject: bool): Writer {
    if w.curr + 1 < |w.levels| then
      w.(curr := w.curr + 1, levels := w.levels[w.curr + 1 := Level(0, isObject)])
    else w
  }

  function PopLevel(w: Writer): Writer {
    if w.curr > 0 then w.(curr := w.curr - 1) else w
  }

  function Item(w: Writer, s: string): Writer
    requires w.curr < |w.levels|
  {
    Emit(Commify(w), s)
  }

  function Apply(w: Writer, c: Call): (r: Writer)
    requires w.curr < |w.levels|
    ensures r.curr < |r.levels| == |w.levels|
  {
    match c
    case ObjectOpen => PushLevel(Item(w, "{"), true)
    case ObjectClose => PopLevel(Emit(w, "}"))
    case ArrayOpen => PushLevel(Item(w, "["), false)
    case ArrayClose => PopLevel(Emit(w, "]"))
    case PutInteger(n) => Item(w, Decimal(n))
    case PutString(s) => Item(w, Quote(CString(s)))
    case PutBytes(s) => Item(w, Quote(s))
    case PutBool(b) => Item(w, if b then "true" else "false")
    case PutNull => Item(w, "null")
    case PutLiteral(s) => Item(w, s)
  }

  function Replay(w: Writer, cs: seq<Call>): (r: Writer)
    requires w.curr < |w.levels|
    ensures r.curr < |r.levels| == |w.levels|
    decreases |cs|
  {
    if cs == [] then w else Replay(Apply(w, cs[0]), cs[1..])
  }

  lemma {:induction false} ReplayAppend(w: Writer, cs: seq<Call>, ds: seq<Call>)
    requires Ready(w)
    ensures Replay(w, cs + ds) == Replay(Replay(w, cs), ds)
    decreases |cs|
  {
    hide Apply;
    if cs == [] {
      assert cs + ds == ds;
    } else {
      assert (cs + ds)[0] == cs[0] && (cs + ds)[1..] == cs[1..] + ds;
      ReplayAppend(Apply(w, cs[0]), cs[1..], ds);
    }
  }

  lemma ReplayOne(w: Writer, c: Call, cs: seq<Call>)
    requires Ready(w)
    ensures Replay(w, [c] + cs) == Replay(Apply(w, c), cs)
    ensures Replay(w, [c]) == Apply(w, c)
  {
    hide Apply;
    assert ([c] + cs)[1..] == cs;
    assert [c][1..] == [];
    assert Replay(Apply(w, c), []) == Apply(w, c);
  }

  lemma ReplayTwo(w: Writer, c: Call, d: Call)
    requires Ready(w)
    ensures Replay(w, [c, d]) == Apply(Apply(w, c), d)
  {
    hide Apply;
    assert [c, d] == [c] + [d];
    ReplayOne(w, c, [d]);
    ReplayOne(Apply(w, c), d, []);
  }

  // ----- The calls for a value -----

  /** Keys and strings go through the C-string call unless they hold a NUL byte. */
  function TextCall(s: seq<Byte>): Call {
    if 0 in s then PutBytes(s) else PutString(s)
  }

  function Calls(v: Json): seq<Call>
    decreases v, 0
  {
    match v
    case Null => [PutNull]
    case Bool(b) => [PutBool(b)]
    case Int(n) => [PutInteger(n)]
    case Str(s) => [TextCall(s)]
    case Arr(items) => [ArrayOpen] + ItemCalls(items) + [ArrayClose]
    case Obj(members) => [ObjectOpen] + MemberCalls(members) + [ObjectClose]
  }

  function ItemCalls(items: seq<Json>): seq<Call>
    decreases items, 1
  {
    if items == [] then [] else Calls(items[0]) + ItemCalls(items[1..])
  }

  function MemberCalls(members: seq<Member>): seq<Call>
    decreases members, 1
  {
    if members == [] then []
    else [TextCall(members[0].key)] + Calls(members[0].value) + MemberCalls(members[1..])
  }

  // ----- Nesting -----

  function Max(a: nat, b: nat): nat {
    if a < b then b else a
  }

  function Depth(v: Json): nat
    decreases v, 0
  {
    match v
    case Arr(items) => 1 + ItemsDepth(items)
    case Obj(members) => 1 + MembersDepth(members)
    case _ => 0
  }

  function ItemsDepth(items: seq<Json>): nat
    decreases items, 1
  {
    if items == [] then 0 else Max(Depth(items[0]), ItemsDepth(items[1..]))
  }

  function MembersDepth(members: seq<Member>): nat
    decreases members, 1
  {
    if members == [] then 0 else Max(Depth(members[0].value), MembersDepth(members[1..]))
  }

  /** Every container's item count fits a machine word. */
  predicate Countable(v: Json)
    decreases v, 0
  {
    match v
    case Arr(items) => |items| < WORD && ItemsCountable(items)
    case Obj(members) => 2 * |members| < WORD && MembersCountable(members)
    case _ => true
  }

  predicate ItemsCountable(items: seq<Json>)
    decreases items, 1
  {
    items == [] || (Countable(items[0]) && ItemsCountable(items[1..]))
  }

  predicate MembersCountable(members: seq<Member>)
    decreases members, 1
  {
    members == [] || (Countable(members[0].value) && MembersCountable(members[1..]))
  }

  // ----- What the calls for a value print -----

  /** The effect of n finished items printed as s: the open level counts them, lower levels are untouched,
      levels above are scratch. */
  ghost predicate Wrote(w: Writer, r: Writer, n: nat, s: string) {
    && Ready(w) && r.curr == w.curr && |r.levels| == |w.levels|
    && r.levels[..w.curr] == w.levels[..w.curr]
    && r.levels[w.curr] == Counted(w.levels[w.curr], n)
    && r.out == w.out + s
  }

  lemma WroteChain(w: Writer, r: Writer, q: Writer, m: nat, n: nat, s: string, t: string)
    requires Wrote(w, r, m, s) && Wrote(r, q, n, t) && w.levels[w.curr].itemCount + m + n < WORD
    ensures Wrote(w, q, m + n, s + t)
  {
    assert w.out + s + t == w.out + (s + t);
  }

  lemma NothingWrote(w: Writer)
    requires Ready(w) && w.levels[w.curr].itemCount < WORD
    ensures Wrote(w, Replay(w, []), 0, "")
  {
    assert w.out + "" == w.out;
  }

  lemma {:induction false} CStringPrefix(s: seq<Byte>, i: nat)
    requires i <= |s| && 0 !in s[..i] && (i < |s| ==> s[i] == 0)
    ensures CString(s) == s[..i]
  {
    if i > 0 {
      assert s[0] == s[..i][0] && s[1..][..i - 1] == s[..i][1..];
      CStringPrefix(s[1..], i - 1);
    }
  }

  lemma {:induction false} CStringWhole(s: seq<Byte>)
    requires 0 !in s
    ensures CString(s) == s
  {
    if s != [] {
      CStringWhole(s[1..]);
      assert [s[0]] + s[1..] == s;
    }
  }

  lemma ItemWrote(w: Writer, s: string)
    requires Ready(w)
    ensures Wrote(w, Item(w, s), 1, Separator(w.levels[w.curr]) + s)
  {
    var p := Separator(w.levels[w.curr]);
    assert w.out + p + s == w.out + (p + s);
  }

  lemma TextWrote(w: Writer, s: seq<Byte>)
    requires Ready(w)
    ensures Wrote(w, Apply(w, TextCall(s)), 1, Separator(w.levels[w.curr]) + Quote(s))
  {
    if 0 !in s {
      CStringWhole(s);
    }
    ItemWrote(w, Quote(s));
  }

  /** Opening, writing a body at the new level and closing is one item of the outer level. */
  lemma Bracketed(w: Writer, open: string, close: string, isObject: bool, inner: Writer, n: nat, body: string)
    requires w.curr + 1 < |w.levels|
    requires Wrote(PushLevel(Item(w, open), isObject), inner, n, body)
    ensures Wrote(w, PopLevel(Emit(inner, close)), 1, Separator(w.levels[w.curr]) + (open + body + close))
  {
    var p := Separator(w.levels[w.curr]);
    var o := PushLevel(Item(w, open), isObject);
    var r := PopLevel(Emit(inner, close));
    assert r.levels[..w.curr + 1] == o.levels[..w.curr + 1];
    assert r.levels[..w.curr] == r.levels[..w.curr + 1][..w.curr];
    assert o.levels[..w.curr] == w.levels[..w.curr];
    assert r.levels[w.curr] == r.levels[..w.curr + 1][w.curr];
    assert w.out + p + open + body + close == w.out + (p + (open + body + close));
  }

  lemma CallWrote(w: Writer, c: Call, s: string)
    requires Ready(w) && Apply(w, c) == Item(w, s)
    ensures Wrote(w, Replay(w, [c]), 1, Separator(w.levels[w.curr]) + s)
  {
    hide Apply, Replay, Item, Wrote;
    ReplayOne(w, c, []);
    ItemWrote(w, s);
  }

  lemma AtomWrote(w: Writer, v: Json)
    requires Ready(w) && !v.Arr? && !v.Obj?
    ensures Wrote(w, Replay(w, Calls(v)), 1, Separator(w.levels[w.curr]) + Print(v))
  {
    hide Wrote, Replay, Decimal, Quote, Commify, Emit, Separator, TextCall;
    match v {
      case Null => CallWrote(w, PutNull, "null");
      case Bool(b) => CallWrote(w, PutBool(b), if b then "true" else "false");
      case Int(n) => CallWrote(w, PutInteger(n), Decimal(n));
      case Str(s) =>
        ReplayOne(w, TextCall(s), []);
        TextWrote(w, s);
    }
  }

  /** Within the depth bound, the calls for a value print exactly its compact form. */
  lemma {:induction false} ValueWrote(w: Writer, v: Json)
    requires Ready(w) && w.curr + Depth(v) < |w.levels| && Countable(v)
    ensures Wrote(w, Replay(w, Calls(v)), 1, Separator(w.levels[w.curr]) + Print(v))
    decreases v, 0
  {
    hide Replay, Wrote;
    match v {
      case Arr(items) =>
        var o := Apply(w, ArrayOpen);
        ItemsWrote(o, items);
        ReplayBracket(w, ArrayOpen, ItemCalls(items), ArrayClose);
        Bracketed(w, "[", "]", false, Replay(o, ItemCalls(items)), |items|, PrintItems(items, true));
      case Obj(members) =>
        var o := Apply(w, ObjectOpen);
        MembersWrote(o, members);
        ReplayBracket(w, ObjectOpen, MemberCalls(members), ObjectClose);
        Bracketed(w, "{", "}", true, Replay(o, MemberCalls(members)), 2 * |members|, PrintMembers(members, true));
      case _ =>
        AtomWrote(w, v);
    }
  }

  lemma ReplayBracket(w: Writer, open: Call, cs: seq<Call>, close: Call)
    requires Ready(w)
    ensures Replay(w, [open] + cs + [close]) == Apply(Replay(Apply(w, open), cs), close)
  {
    hide Apply;
    ReplayAppend(w, [open] + cs, [close]);
    ReplayOne(w, open, cs);
    ReplayOne(Replay(Apply(w, open), cs), close, []);
  }

  lemma {:induction false} ItemsWrote(w: Writer, items: seq<Json>)
    requires Ready(w) && !w.levels[w.curr].isObject && w.curr + ItemsDepth(items) < |w.levels|
    requires ItemsCountable(items) && w.levels[w.curr].itemCount + |items| < WORD
    ensures Wrote(w, Replay(w, ItemCalls(items)), |items|, PrintItems(items, w.levels[w.curr].itemCount == 0))
    decreases items, 1
  {
    hide Apply, Replay, Calls, Print, Countable, Depth;
    if items == [] {
      NothingWrote(w);
    } else {
      var v, vs, first := items[0], items[1..], w.levels[w.curr].itemCount == 0;
      ValueWrote(w, v);
      var r := Replay(w, Calls(v));
      ItemsWrote(r, vs);
      ReplayAppend(w, Calls(v), ItemCalls(vs));
      WroteChain(w, r, Replay(r, ItemCalls(vs)), 1, |vs|,
                 Separator(w.levels[w.curr]) + Print(v), PrintItems(vs, false));
    }
  }

  lemma {:induction false} MembersWrote(w: Writer, members: seq<Member>)
    requires Ready(w) && w.levels[w.curr].isObject && w.levels[w.curr].itemCount % 2 == 0
    requires w.curr + MembersDepth(members) < |w.levels|
    requires MembersCountable(members) && w.levels[w.curr].itemCount + 2 * |members| < WORD
    ensures Wrote(w, Replay(w, MemberCalls(members)), 2 * |members|,
                  PrintMembers(members, w.levels[w.curr].itemCount == 0))
    decreases members, 1
  {
    hide Apply, Replay, Calls, Print, Countable, Depth;
    if members == [] {
      NothingWrote(w);
    } else {
      var m, ms := members[0], members[1..];
      var r := MemberWrote(w, m);
      MembersWrote(r, ms);
      ReplayMember(w, m, ms);
      hide Wrote, TextCall;
      WroteChain(w, r, Replay(r, MemberCalls(ms)), 2, 2 * |ms|, MemberPrint(w, m), PrintMembers(ms, false));
    }
  }

  function MemberPrint(w: Writer, m: Member): string
    requires Ready(w)
  {
    Separator(w.levels[w.curr]) + Quote(m.key) + ":" + Print(m.value)
  }

  /** A key and its value are two items. */
  lemma {:induction false} MemberWrote(w: Writer, m: Member) returns (r: Writer)
    requires Ready(w) && w.levels[w.curr].isObject && w.levels[w.curr].itemCount % 2 == 0
    requires w.curr + Depth(m.value) < |w.levels| && Countable(m.value) && w.levels[w.curr].itemCount + 2 < WORD
    ensures r == Replay(Apply(w, TextCall(m.key)), Calls(m.value)) && Wrote(w, r, 2, MemberPrint(w, m))
    decreases m, 2
  {
    hide Apply, Replay, Calls, Print, Quote, TextCall;
    var k, sep := Apply(w, TextCall(m.key)), Separator(w.levels[w.curr]);
    TextWrote(w, m.key);
    ValueWrote(k, m.value);
    r := Replay(k, Calls(m.value));
    WroteChain(w, k, r, 1, 1, sep + Quote(m.key), ":" + Print(m.value));
    Append(sep + Quote(m.key), ":", Print(m.value));
  }

  lemma ReplayMember(w: Writer, m: Member, ms: seq<Member>)
    requires Ready(w)
    ensures Replay(w, [TextCall(m.key)] + Calls(m.value) + MemberCalls(ms))
            == Replay(Replay(Apply(w, TextCall(m.key)), Calls(m.value)), MemberCalls(ms))
  {
    hide Apply, Calls;
    ReplayAppend(w, [TextCall(m.key)] + Calls(m.value), MemberCalls(ms));
    ReplayOne(w, TextCall(m.key), Calls(m.value));
  }

  // ----- From a fresh writer -----

  function Reset(w: Writer): Writer
    requires |w.levels| > 0
  {
    w.(curr := 0, levels := w.levels[0 := Level(0, false)])
  }

  /** The stream of calls for a value after a reset is its compact print, and parsing that gives the value back. */
  lemma StreamRoundTrip(w: Writer, v: Json)
    requires Depth(v) < |w.levels| && Countable(v) && w.out == ""
    ensures var r := Replay(Reset(w), Calls(v));
            && r.out == Print(v) && Parse(r.out) == Some(v) && r.curr == 0 && r.levels[0] == Level(1, false)
  {
    hide Replay, Print, Parse, Calls, Depth, Countable;
    ValueWrote(Reset(w), v);
    ParsePrint(v);
    assert "" + ("" + Print(v)) == Print(v);
  }

  // ----- Single calls in full -----

  /** A literal is one item, copied as it is: the print of a value as a literal has the effect of its calls. */
  lemma LiteralWrote(w: Writer, text: string)
    requires Ready(w)
    ensures Wrote(w, Apply(w, PutLiteral(text)), 1, Separator(w.levels[w.curr]) + text)
  {
    ItemWrote(w, text);
  }

  /** A C string ends at its first NUL, whatever follows; a byte string does not. */
  lemma StringEndsAtNul(w: Writer, a: seq<Byte>, b: seq<Byte>)
    requires Ready(w) && 0 !in a
    ensures Wrote(w, Apply(w, PutString(a + [0] + b)), 1, Separator(w.levels[w.curr]) + Print(Str(a)))
    ensures Wrote(w, Apply(w, PutBytes(a + [0] + b)), 1, Separator(w.levels[w.curr]) + Print(Str(a + [0] + b)))
  {
    var s := a + [0] + b;
    assert s[..|a|] == a;
    CStringPrefix(s, |a|);
    ItemWrote(w, Quote(a));
    ItemWrote(w, Quote(s));
  }

  /** The counter of a level is a machine word: the item after number 2^64 - 1 makes it 0, and the one after
      that comes without a separator. */
  lemma CounterWraps(w: Writer, c: Call)
    requires Ready(w) && w.levels[w.curr].itemCount == 0xFFFF_FFFF_FFFF_FFFF && c.PutNull?
    ensures Apply(w, c).levels[w.curr].itemCount == 0
    ensures Apply(Apply(w, c), c).out == Apply(w, c).out + "null"
  {
    assert Apply(w, c).out + "" + "null" == Apply(w, c).out + "null";
  }
}
