/** Call sequences against the level array: bracketing inside the bound, and what goes wrong beyond it. */
module JemsDepth {
  import opened Bits
  import opened Json
  import opened JsonRoundTrip
  import opened JemsModel

  // ----- Well-bracketed call sequences -----

  /** A value may come next: always in an array, after a key in an object. */
  predicate ValueNext(l: Level) {
    l.isObject ==> l.itemCount % 2 == 1
  }

  /** The open containers, outermost first, below them the top level. */
  ghost predicate Legal(open: seq<Level>, c: Call, maxLevel: nat) {
    open != [] &&
    var top := open[|open| - 1];
    match c
    case ObjectOpen => ValueNext(top) && |open| < maxLevel
    case ArrayOpen => ValueNext(top) && |open| < maxLevel
    case ObjectClose => |open| > 1 && top.isObject && top.itemCount % 2 == 0
    case ArrayClose => |open| > 1 && !top.isObject
    case PutString(_) => true
    case PutBytes(_) => true
    case _ => ValueNext(top)
  }

  ghost function Track(open: seq<Level>, c: Call): seq<Level>
    requires open != []
  {
    var n := |open| - 1;
    var counted := open[n := Counted(open[n], 1)];
    match c
    case ObjectOpen => counted + [Level(0, true)]
    case ArrayOpen => counted + [Level(0, false)]
    case ObjectClose => open[..n]
    case ArrayClose => open[..n]
    case _ => counted
  }

  ghost predicate LegalRun(open: seq<Level>, cs: seq<Call>, maxLevel: nat)
    decreases |cs|
  {
    cs == [] || (Legal(open, cs[0], maxLevel) && LegalRun(Track(open, cs[0]), cs[1..], maxLevel))
  }

  ghost function TrackAll(open: seq<Level>, cs: seq<Call>, maxLevel: nat): seq<Level>
    requires LegalRun(open, cs, maxLevel)
    decreases |cs|
  {
    if cs == [] then open else TrackAll(Track(open, cs[0]), cs[1..], maxLevel)
  }

  function Opened(c: Call): int {
    if c.ObjectOpen? || c.ArrayOpen? then 1 else if c.ObjectClose? || c.ArrayClose? then -1 else 0
  }

  function OpenBalance(cs: seq<Call>): int {
    if cs == [] then 0 else Opened(cs[0]) + OpenBalance(cs[1..])
  }

  ghost predicate Follows(w: Writer, open: seq<Level>) {
    Ready(w) && open == w.levels[..w.curr + 1]
  }

  lemma ApplyFollows(w: Writer, open: seq<Level>, c: Call)
    requires Follows(w, open) && Legal(open, c, |w.levels|)
    ensures Follows(Apply(w, c), Track(open, c)) && Apply(w, c).curr == w.curr + Opened(c)
  {
    var r := Apply(w, c);
    assert r.levels[..r.curr + 1] == Track(open, c);
  }

  /** Along a legal run the writer's levels are exactly the open containers with their item counts. */
  lemma {:induction false} RunFollows(w: Writer, open: seq<Level>, cs: seq<Call>)
    requires Follows(w, open) && LegalRun(open, cs, |w.levels|)
    ensures Follows(Replay(w, cs), TrackAll(open, cs, |w.levels|))
    ensures Replay(w, cs).curr == w.curr + OpenBalance(cs)
    decreases |cs|
  {
    hide Apply, Legal, Track;
    if cs != [] {
      ApplyFollows(w, open, cs[0]);
      RunFollows(Apply(w, cs[0]), Track(open, cs[0]), cs[1..]);
    }
  }

  lemma {:induction false} LegalAppend(open: seq<Level>, cs: seq<Call>, ds: seq<Call>, max: nat)
    requires LegalRun(open, cs, max) && LegalRun(TrackAll(open, cs, max), ds, max)
    ensures LegalRun(open, cs + ds, max)
    ensures TrackAll(open, cs + ds, max) == TrackAll(TrackAll(open, cs, max), ds, max)
    decreases |cs|
  {
    hide Track;
    if cs == [] {
      assert cs + ds == ds;
    } else {
      assert (cs + ds)[0] == cs[0] && (cs + ds)[1..] == cs[1..] + ds;
      LegalAppend(Track(open, cs[0]), cs[1..], ds, max);
    }
  }

  lemma LegalOne(open: seq<Level>, c: Call, max: nat)
    requires Legal(open, c, max)
    ensures LegalRun(open, [c], max) && TrackAll(open, [c], max) == Track(open, c)
  {
    hide Track;
    assert [c][1..] == [];
    assert LegalRun(Track(open, c), [], max);
  }

  /** The innermost open level with n more items. */
  ghost function WithItems(open: seq<Level>, n: nat): seq<Level>
    requires open != []
  {
    open[|open| - 1 := Counted(open[|open| - 1], n)]
  }

  lemma WithItemsAdd(open: seq<Level>, m: nat, n: nat)
    requires open != [] && open[|open| - 1].itemCount + m + n < WORD
    ensures WithItems(WithItems(open, m), n) == WithItems(open, m + n) && WithItems(open, 0) == open
  {
  }

  /** The calls for a value are well bracketed wherever a value may come and its nesting has room. */
  lemma {:induction false} ValueLegal(open: seq<Level>, v: Json, max: nat)
    requires open != [] && ValueNext(open[|open| - 1]) && |open| + Depth(v) <= max && Countable(v)
    ensures LegalRun(open, Calls(v), max) && TrackAll(open, Calls(v), max) == WithItems(open, 1)
    decreases v, 0
  {
    hide LegalRun, TrackAll;
    match v {
      case Arr(items) =>
        ItemsLegal(WithItems(open, 1) + [Level(0, false)], items, max);
        BracketLegal(open, ArrayOpen, ItemCalls(items), ArrayClose, max);
      case Obj(members) =>
        MembersLegal(WithItems(open, 1) + [Level(0, true)], members, max);
        BracketLegal(open, ObjectOpen, MemberCalls(members), ObjectClose, max);
      case _ =>
        LegalOne(open, Calls(v)[0], max);
    }
  }

  lemma BracketLegal(open: seq<Level>, c: Call, cs: seq<Call>, d: Call, max: nat)
    requires Legal(open, c, max) && LegalRun(Track(open, c), cs, max)
    requires Legal(TrackAll(Track(open, c), cs, max), d, max)
    ensures LegalRun(open, [c] + cs + [d], max)
    ensures TrackAll(open, [c] + cs + [d], max) == Track(TrackAll(Track(open, c), cs, max), d)
  {
    hide Track, LegalRun, TrackAll;
    LegalOne(open, c, max);
    LegalAppend(open, [c], cs, max);
    LegalOne(TrackAll(Track(open, c), cs, max), d, max);
    LegalAppend(open, [c] + cs, [d], max);
  }

  lemma {:induction false} ItemsLegal(open: seq<Level>, items: seq<Json>, max: nat)
    requires open != [] && !open[|open| - 1].isObject && |open| + ItemsDepth(items) <= max
    requires ItemsCountable(items) && open[|open| - 1].itemCount + |items| < WORD
    ensures LegalRun(open, ItemCalls(items), max)
    ensures TrackAll(open, ItemCalls(items), max) == WithItems(open, |items|)
    decreases items, 1
  {
    hide Calls, Depth, Countable, LegalRun, TrackAll, WithItems;
    LegalNone(open, max);
    if items != [] {
      WithItemsAdd(open, 1, |items| - 1);
      OneItem(open);
      ValueLegal(open, items[0], max);
      ItemsLegal(WithItems(open, 1), items[1..], max);
      LegalAppend(open, Calls(items[0]), ItemCalls(items[1..]), max);
    }
  }

  lemma LegalNone(open: seq<Level>, max: nat)
    requires open != [] && open[|open| - 1].itemCount < WORD
    ensures LegalRun(open, [], max) && TrackAll(open, [], max) == open == WithItems(open, 0)
  {
  }

  lemma OneItem(open: seq<Level>)
    requires open != [] && open[|open| - 1].itemCount + 1 < WORD
    ensures |WithItems(open, 1)| == |open|
    ensures WithItems(open, 1)[|open| - 1] == open[|open| - 1].(itemCount := open[|open| - 1].itemCount + 1)
  {
  }

  /** A key and its value. */
  lemma {:induction false} MemberLegal(open: seq<Level>, m: Member, max: nat)
    requires open != [] && open[|open| - 1].isObject && open[|open| - 1].itemCount % 2 == 0
    requires |open| + Depth(m.value) <= max && Countable(m.value) && open[|open| - 1].itemCount + 2 < WORD
    ensures LegalRun(open, [TextCall(m.key)] + Calls(m.value), max)
    ensures TrackAll(open, [TextCall(m.key)] + Calls(m.value), max) == WithItems(open, 2)
    decreases m, 2
  {
    hide Calls, Depth, Countable, LegalRun, TrackAll;
    LegalOne(open, TextCall(m.key), max);
    ValueLegal(WithItems(open, 1), m.value, max);
    LegalAppend(open, [TextCall(m.key)], Calls(m.value), max);
    WithItemsAdd(open, 1, 1);
  }

  lemma {:induction false} MembersLegal(open: seq<Level>, members: seq<Member>, max: nat)
    requires open != [] && open[|open| - 1].isObject && open[|open| - 1].itemCount % 2 == 0
    requires |open| + MembersDepth(members) <= max
    requires MembersCountable(members) && open[|open| - 1].itemCount + 2 * |members| < WORD
    ensures LegalRun(open, MemberCalls(members), max)
    ensures TrackAll(open, MemberCalls(members), max) == WithItems(open, 2 * |members|)
    decreases members, 1
  {
    hide Calls, Depth, Countable, LegalRun, TrackAll;
    LegalNone(open, max);
    if members != [] {
      var m, ms := members[0], members[1..];
      MemberLegal(open, m, max);
      MembersLegal(WithItems(open, 2), ms, max);
      LegalAppend(open, [TextCall(m.key)] + Calls(m.value), MemberCalls(ms), max);
      WithItemsAdd(open, 2, 2 * |ms|);
    }
  }

  // ----- Beyond the bound -----

  /** The texts disagree at some position, so neither is a prefix of the other. */
  ghost predicate Differ(s: string, t: string) {
    exists k :: 0 <= k < |s| && k < |t| && s[k] != t[k]
  }

  lemma DifferExtends(s: string, t: string, s': string, t': string)
    requires Differ(s, t) && s <= s' && t <= t'
    ensures Differ(s', t')
  {
    var k :| 0 <= k < |s| && k < |t| && s[k] != t[k];
    assert s'[k] == s[k] && t'[k] == t[k];
  }

  lemma ApplyGrows(w: Writer, c: Call)
    requires Ready(w)
    ensures w.out <= Apply(w, c).out
  {
  }

  lemma {:induction false} OutGrows(w: Writer, cs: seq<Call>)
    requires Ready(w)
    ensures w.out <= Replay(w, cs).out
    decreases |cs|
  {
    hide Apply;
    if cs != [] {
      ApplyGrows(w, cs[0]);
      OutGrows(Apply(w, cs[0]), cs[1..]);
    }
  }

  /** With n levels from the current one on, the first container that finds none left holds something. */
  predicate Spills(v: Json, n: nat)
    decreases v, 0
  {
    match v
    case Arr(items) => if n <= 1 then items != [] else ItemsSpill(items, n - 1)
    case Obj(members) => if n <= 1 then members != [] else MembersSpill(members, n - 1)
    case _ => false
  }

  predicate ItemsSpill(items: seq<Json>, n: nat)
    decreases items, 1
  {
    items != [] && if n <= Depth(items[0]) then Spills(items[0], n) else ItemsSpill(items[1..], n)
  }

  predicate MembersSpill(members: seq<Member>, n: nat)
    decreases members, 1
  {
    members != [] && if n <= Depth(members[0].value) then Spills(members[0].value, n) else MembersSpill(members[1..], n)
  }

  predicate HasNoEmpty(v: Json)
    decreases v, 0
  {
    match v
    case Arr(items) => items != [] && ItemsHaveNoEmpty(items)
    case Obj(members) => members != [] && MembersHaveNoEmpty(members)
    case _ => true
  }

  predicate ItemsHaveNoEmpty(items: seq<Json>)
    decreases items, 1
  {
    items == [] || (HasNoEmpty(items[0]) && ItemsHaveNoEmpty(items[1..]))
  }

  predicate MembersHaveNoEmpty(members: seq<Member>)
    decreases members, 1
  {
    members == [] || (HasNoEmpty(members[0].value) && MembersHaveNoEmpty(members[1..]))
  }

  /** Without empty containers every value nested too deep spills. */
  lemma {:induction false} NoEmptySpills(v: Json, n: nat)
    requires HasNoEmpty(v) && 0 < n <= Depth(v)
    ensures Spills(v, n)
    decreases v, 0
  {
    match v {
      case Arr(items) =>
        if n > 1 {
          ItemsNoEmptySpill(items, n - 1);
        }
      case Obj(members) =>
        if n > 1 {
          MembersNoEmptySpill(members, n - 1);
        }
      case _ =>
    }
  }

  lemma {:induction false} ItemsNoEmptySpill(items: seq<Json>, n: nat)
    requires ItemsHaveNoEmpty(items) && 0 < n <= ItemsDepth(items)
    ensures ItemsSpill(items, n)
    decreases items, 1
  {
    if n <= Depth(items[0]) {
      NoEmptySpills(items[0], n);
    } else {
      ItemsNoEmptySpill(items[1..], n);
    }
  }

  lemma {:induction false} MembersNoEmptySpill(members: seq<Member>, n: nat)
    requires MembersHaveNoEmpty(members) && 0 < n <= MembersDepth(members)
    ensures MembersSpill(members, n)
    decreases members, 1
  {
    if n <= Depth(members[0].value) {
      NoEmptySpills(members[0].value, n);
    } else {
      MembersNoEmptySpill(members[1..], n);
    }
  }

  /** The first call for a value or key begins with the separator of the open level. */
  predicate StartsItem(c: Call) {
    !c.ObjectClose? && !c.ArrayClose?
  }

  lemma ItemStartsWithSeparator(w: Writer, c: Call)
    requires Ready(w) && StartsItem(c)
    ensures w.out + Separator(w.levels[w.curr]) <= Apply(w, c).out
  {
  }

  /** Opening a container at the last level keeps that level current, so the container's first item is
      preceded by a separator that does not belong there. */
  lemma FirstItemMisplaced(w: Writer, open: Call, bracket: string, c: Call, cs: seq<Call>, expected: string)
    requires Ready(w) && w.curr + 1 == |w.levels| && w.levels[w.curr].itemCount + 1 < WORD && StartsItem(c)
    requires (open == ObjectOpen && bracket == "{") || (open == ArrayOpen && bracket == "[")
    requires expected != "" && StartsValue(expected[0])
    ensures Differ(Replay(Apply(w, open), [c] + cs).out, w.out + Separator(w.levels[w.curr]) + bracket + expected)
  {
    var o := Apply(w, open);
    var sep := Separator(o.levels[o.curr]);
    var r := Replay(o, [c] + cs);
    ItemStartsWithSeparator(o, c);
    ReplayOne(o, c, cs);
    OutGrows(Apply(o, c), cs);
    var text := o.out + expected;
    assert r.out[|o.out|] == (o.out + sep)[|o.out|] == sep[0];
    assert text[|o.out|] == expected[0];
  }

  lemma CallsStart(v: Json) returns (c: Call, cs: seq<Call>)
    ensures Calls(v) == [c] + cs && StartsItem(c)
  {
    c, cs := Calls(v)[0], Calls(v)[1..];
    match v {
      case Arr(items) =>
        assert Calls(v) == [ArrayOpen] + (ItemCalls(items) + [ArrayClose]);
      case Obj(members) =>
        assert Calls(v) == [ObjectOpen] + (MemberCalls(members) + [ObjectClose]);
      case _ =>
    }
  }

  /** A value that spills over the level array comes out as different text. */
  lemma {:induction false} ValueOverflows(w: Writer, v: Json)
    requires Ready(w) && Spills(v, |w.levels| - w.curr) && Countable(v)
    requires w.levels[w.curr].itemCount + 1 < WORD
    ensures Differ(Replay(w, Calls(v)).out, w.out + (Separator(w.levels[w.curr]) + Print(v)))
    decreases v, 0
  {
    hide Replay, Apply;
    match v {
      case Arr(items) =>
        ArrayOverflows(w, items);
      case Obj(members) =>
        ObjectOverflows(w, members);
      case _ =>
        assert false;
    }
  }

  lemma OpenedOut(w: Writer, open: Call, bracket: string)
    requires Ready(w)
    requires (open == ObjectOpen && bracket == "{") || (open == ArrayOpen && bracket == "[")
    ensures Apply(w, open).out == w.out + Separator(w.levels[w.curr]) + bracket
    ensures w.curr + 1 < |w.levels| ==>
              Apply(w, open).curr == w.curr + 1 && Apply(w, open).levels[w.curr + 1] == Level(0, open == ObjectOpen)
  {
  }

  lemma {:induction false} ArrayOverflows(w: Writer, items: seq<Json>)
    requires Ready(w) && Spills(Arr(items), |w.levels| - w.curr) && |items| < WORD && ItemsCountable(items)
    requires w.levels[w.curr].itemCount + 1 < WORD
    ensures Differ(Replay(w, Calls(Arr(items))).out, w.out + (Separator(w.levels[w.curr]) + Print(Arr(items))))
    decreases items, 2
  {
    hide Replay, Apply, Counted;
    var sep, o, body := Separator(w.levels[w.curr]), Apply(w, ArrayOpen), PrintItems(items, true);
    OpenedOut(w, ArrayOpen, "[");
    var r := Replay(o, ItemCalls(items));
    if w.curr + 1 < |w.levels| {
      ItemsOverflow(o, items);
    } else {
      var c, cs := CallsStart(items[0]);
      assert ItemCalls(items) == [c] + (cs + ItemCalls(items[1..]));
      ItemsStart(items, "");
      assert body + "" == body;
      FirstItemMisplaced(w, ArrayOpen, "[", c, cs + ItemCalls(items[1..]), body);
    }
    ReplayBracket(w, ArrayOpen, ItemCalls(items), ArrayClose);
    ClosedGrows(r, ArrayClose);
    Regroup(w.out, sep, "[", body, "]");
    DifferExtends(r.out, o.out + body, Apply(r, ArrayClose).out, w.out + (sep + ("[" + body + "]")));
  }

  lemma {:induction false} ObjectOverflows(w: Writer, members: seq<Member>)
    requires Ready(w) && Spills(Obj(members), |w.levels| - w.curr)
    requires 2 * |members| < WORD && MembersCountable(members)
    requires w.levels[w.curr].itemCount + 1 < WORD
    ensures Differ(Replay(w, Calls(Obj(members))).out, w.out + (Separator(w.levels[w.curr]) + Print(Obj(members))))
    decreases members, 2
  {
    hide Replay, Apply, Counted;
    var sep, o, body := Separator(w.levels[w.curr]), Apply(w, ObjectOpen), PrintMembers(members, true);
    OpenedOut(w, ObjectOpen, "{");
    var r := Replay(o, MemberCalls(members));
    if w.curr + 1 < |w.levels| {
      MembersOverflow(o, members);
    } else {
      var c, m := TextCall(members[0].key), members[0];
      var cs := Calls(m.value) + MemberCalls(members[1..]);
      assert MemberCalls(members) == [c] + cs;
      assert body[0] == '"';
      FirstItemMisplaced(w, ObjectOpen, "{", c, cs, body);
    }
    ReplayBracket(w, ObjectOpen, MemberCalls(members), ObjectClose);
    ClosedGrows(r, ObjectClose);
    Regroup(w.out, sep, "{", body, "}");
    DifferExtends(r.out, o.out + body, Apply(r, ObjectClose).out, w.out + (sep + ("{" + body + "}")));
  }

  lemma ClosedGrows(r: Writer, c: Call)
    requires Ready(r)
    ensures r.out <= Apply(r, c).out
  {
    ReplayOne(r, c, []);
    OutGrows(r, [c]);
  }

  lemma Regroup(a: string, b: string, c: string, d: string, e: string)
    ensures a + b + c + d <= a + (b + (c + d + e))
  {
    assert a + (b + (c + d + e)) == a + b + c + d + e;
  }

  lemma {:induction false} ItemsOverflow(w: Writer, items: seq<Json>)
    requires Ready(w) && !w.levels[w.curr].isObject && ItemsSpill(items, |w.levels| - w.curr)
    requires ItemsCountable(items) && w.levels[w.curr].itemCount + |items| < WORD
    ensures Differ(Replay(w, ItemCalls(items)).out, w.out + PrintItems(items, w.levels[w.curr].itemCount == 0))
    decreases items, 1
  {
    hide Replay, Apply;
    var v, vs, l := items[0], items[1..], w.levels[w.curr];
    var r := Replay(w, Calls(v));
    var q := Replay(r, ItemCalls(vs));
    var text, rest := Separator(l) + Print(v), PrintItems(vs, false);
    ReplayAppend(w, Calls(v), ItemCalls(vs));
    Append(w.out, text, rest);
    if |w.levels| <= w.curr + Depth(v) {
      ValueOverflows(w, v);
      OutGrows(r, ItemCalls(vs));
      DifferExtends(r.out, w.out + text, q.out, w.out + text + rest);
    } else {
      ValueWrote(w, v);
      ItemsOverflow(r, vs);
    }
  }

  lemma {:induction false} MembersOverflow(w: Writer, members: seq<Member>)
    requires Ready(w) && w.levels[w.curr].isObject && w.levels[w.curr].itemCount % 2 == 0
    requires MembersSpill(members, |w.levels| - w.curr) && MembersCountable(members)
    && w.levels[w.curr].itemCount + 2 * |members| < WORD
    ensures Differ(Replay(w, MemberCalls(members)).out, w.out + PrintMembers(members, w.levels[w.curr].itemCount == 0))
    decreases members, 1
  {
    hide Replay, Apply, Print, Quote, Calls, Depth, Countable, Spills;
    var m, ms, l := members[0], members[1..], w.levels[w.curr];
    var k := Apply(w, TextCall(m.key));
    var r := Replay(k, Calls(m.value));
    var q := Replay(r, MemberCalls(ms));
    var key, value, rest := Separator(l) + Quote(m.key), ":" + Print(m.value), PrintMembers(ms, false);
    TextWrote(w, m.key);
    ReplayMember(w, m, ms);
    MemberText(w.out, Separator(l), Quote(m.key), Print(m.value), rest);
    if |w.levels| <= w.curr + Depth(m.value) {
      ValueOverflows(k, m.value);
      OutGrows(r, MemberCalls(ms));
      DifferExtends(r.out, w.out + key + value, q.out, w.out + key + value + rest);
    } else {
      ValueWrote(k, m.value);
      WroteChain(w, k, r, 1, 1, key, value);
      MembersOverflow(r, ms);
    }
  }

  lemma MemberText(a: string, sep: string, q: string, p: string, rest: string)
    ensures a + (sep + q + ":" + p + rest) == a + (sep + q) + (":" + p) + rest
  {
  }

  /** For values without empty containers the output is the compact print exactly when the nesting
      stays below the number of levels. */
  lemma PrintsExactlyWithinDepth(w: Writer, v: Json)
    requires |w.levels| > 0 && w.out == "" && Countable(v) && HasNoEmpty(v)
    ensures Replay(Reset(w), Calls(v)).out == Print(v) <==> Depth(v) < |w.levels|
  {
    if Depth(v) < |w.levels| {
      StreamRoundTrip(w, v);
    } else {
      NoEmptySpills(v, |w.levels|);
      SpillsWrong(w, v);
    }
  }

  lemma SpillsWrong(w: Writer, v: Json)
    requires |w.levels| > 0 && w.out == "" && Countable(v) && Spills(v, |w.levels|)
    ensures Replay(Reset(w), Calls(v)).out != Print(v)
  {
    hide Replay, Calls, Print;
    ValueOverflows(Reset(w), v);
    assert "" + ("" + Print(v)) == Print(v);
  }

  /** Every value nested at most d deep comes out as its compact print. */
  ghost predicate PrintsAll(w: Writer, d: nat)
    requires |w.levels| > 0
  {
    forall v :: Depth(v) <= d && Countable(v) ==> Replay(Reset(w), Calls(v)).out == Print(v)
  }

  /** A null inside d arrays. */
  function Nested(d: nat): Json {
    if d == 0 then Null else Arr([Nested(d - 1)])
  }

  lemma {:induction false} NestedShape(d: nat)
    ensures Depth(Nested(d)) == d && Countable(Nested(d)) && HasNoEmpty(Nested(d))
  {
    if d > 0 {
      NestedShape(d - 1);
      var items := [Nested(d - 1)];
      assert items[1..] == [];
    }
  }

  /** Which nesting a level array can be trusted with, whatever the values hold. */
  lemma PrintsAllIff(w: Writer, d: nat)
    requires |w.levels| > 0 && w.out == ""
    ensures PrintsAll(w, d) <==> d < |w.levels|
  {
    hide Replay, Calls, Print, Depth, Countable;
    if d < |w.levels| {
      forall v | Depth(v) <= d && Countable(v)
        ensures Replay(Reset(w), Calls(v)).out == Print(v)
      {
        StreamRoundTrip(w, v);
      }
    } else {
      NestedShape(d);
      PrintsExactlyWithinDepth(w, Nested(d));
    }
  }

  // ----- Exactly when one value comes out right -----

  /** The levels up to the current one after a call, when the array has room for max of them. */
  function Bounded(open: seq<Level>, max: nat, c: Call): (r: seq<Level>)
    requires open != []
    ensures r != []
  {
    var n := |open| - 1;
    var counted := open[n := Counted(open[n], 1)];
    match c
    case ObjectOpen => if |open| < max then counted + [Level(0, true)] else counted
    case ArrayOpen => if |open| < max then counted + [Level(0, false)] else counted
    case ObjectClose => if n > 0 then open[..n] else open
    case ArrayClose => if n > 0 then open[..n] else open
    case _ => counted
  }

  /** Along the calls, arrays of m and of n levels call for the same separator before every item. */
  predicate SameSeparators(open: seq<Level>, m: nat, open': seq<Level>, n: nat, cs: seq<Call>)
    requires open != [] && open' != []
    decreases |cs|
  {
    cs == [] ||
    (&& (StartsItem(cs[0]) ==> Separator(open[|open| - 1]) == Separator(open'[|open'| - 1]))
     && SameSeparators(Bounded(open, m, cs[0]), m, Bounded(open', n, cs[0]), n, cs[1..]))
  }

  /** On n levels every item of the value gets the separator that it gets on as many levels as it needs. */
  predicate FitsLevels(v: Json, n: nat) {
    SameSeparators([Level(0, false)], n, [Level(0, false)], Depth(v) + 1, Calls(v))
  }

  lemma ApplyBounded(w: Writer, open: seq<Level>, c: Call)
    requires Follows(w, open)
    ensures Follows(Apply(w, c), Bounded(open, |w.levels|, c))
  {
    hide Separator, Decimal, Quote, CString;
    var r, l, n := Apply(w, c), w.levels, w.curr;
    var counted := l[n := Counted(l[n], 1)];
    assert open[n := Counted(open[n], 1)] == counted[..n + 1];
    match c {
      case ObjectOpen =>
        assert n + 1 < |l| ==> r.levels[..n + 2] == counted[..n + 1] + [Level(0, true)];
      case ArrayOpen =>
        assert n + 1 < |l| ==> r.levels[..n + 2] == counted[..n + 1] + [Level(0, false)];
      case ObjectClose =>
        assert n > 0 ==> open[..n] == l[..n];
      case ArrayClose =>
        assert n > 0 ==> open[..n] == l[..n];
      case _ =>
    }
  }

  /** What a call writes after the separator. */
  function Glyph(c: Call): string {
    match c
    case ObjectOpen => "{"
    case ObjectClose => "}"
    case ArrayOpen => "["
    case ArrayClose => "]"
    case PutInteger(n) => Decimal(n)
    case PutString(s) => Quote(CString(s))
    case PutBytes(s) => Quote(s)
    case PutBool(b) => if b then "true" else "false"
    case PutNull => "null"
    case PutLiteral(s) => s
  }

  lemma ApplyOut(w: Writer, c: Call)
    requires Ready(w)
    ensures Apply(w, c).out == w.out + (if StartsItem(c) then Separator(w.levels[w.curr]) else "") + Glyph(c)
  {
    assert w.out + "" == w.out;
  }

  lemma GlyphStart(c: Call)
    requires StartsItem(c) && !c.PutLiteral?
    ensures Glyph(c) != "" && Glyph(c)[0] != ',' && Glyph(c)[0] != ':'
  {
    match c {
      case PutInteger(n) => PrintStarts(Int(n));
      case PutString(s) => PrintStarts(Str(CString(s)));
      case PutBytes(s) => PrintStarts(Str(s));
      case _ =>
    }
  }

  lemma SeparatorsDiffer(out: string, l: Level, l': Level, glyph: string)
    requires Separator(l) != Separator(l') && glyph != "" && glyph[0] != ',' && glyph[0] != ':'
    ensures Differ(out + Separator(l) + glyph, out + Separator(l') + glyph)
  {
    var s, t := out + Separator(l) + glyph, out + Separator(l') + glyph;
    assert s[|out|] == if Separator(l) == "" then glyph[0] else Separator(l)[0];
    assert t[|out|] == if Separator(l') == "" then glyph[0] else Separator(l')[0];
  }

  /** Two writers given the same calls print the same text exactly when they call for the same separators. */
  lemma {:induction false} Lockstep(w: Writer, open: seq<Level>, r: Writer, open': seq<Level>, cs: seq<Call>)
    requires Follows(w, open) && Follows(r, open') && w.out == r.out
    requires forall c :: c in cs ==> !c.PutLiteral?
    ensures SameSeparators(open, |w.levels|, open', |r.levels|, cs) <==> Replay(w, cs).out == Replay(r, cs).out
    decreases |cs|
  {
    hide Apply, Bounded, Glyph, Separator;
    if cs != [] {
      var c := cs[0];
      ApplyBounded(w, open, c);
      ApplyBounded(r, open', c);
      ApplyOut(w, c);
      ApplyOut(r, c);
      if StartsItem(c) && Separator(open[|open| - 1]) != Separator(open'[|open'| - 1]) {
        GlyphStart(c);
        SeparatorsDiffer(w.out, w.levels[w.curr], r.levels[r.curr], Glyph(c));
        OutGrows(Apply(w, c), cs[1..]);
        OutGrows(Apply(r, c), cs[1..]);
        DifferExtends(Apply(w, c).out, Apply(r, c).out, Replay(w, cs).out, Replay(r, cs).out);
      } else {
        assert forall d :: d in cs[1..] ==> d in cs;
        Lockstep(Apply(w, c), Bounded(open, |w.levels|, c), Apply(r, c), Bounded(open', |r.levels|, c), cs[1..]);
      }
    }
  }

  lemma {:induction false} NoLiterals(v: Json)
    ensures forall c :: c in Calls(v) ==> !c.PutLiteral?
    decreases v, 0
  {
    match v {
      case Arr(items) => ItemsNoLiterals(items);
      case Obj(members) => MembersNoLiterals(members);
      case _ =>
    }
  }

  lemma {:induction false} ItemsNoLiterals(items: seq<Json>)
    ensures forall c :: c in ItemCalls(items) ==> !c.PutLiteral?
    decreases items, 1
  {
    if items != [] {
      NoLiterals(items[0]);
      ItemsNoLiterals(items[1..]);
    }
  }

  lemma {:induction false} MembersNoLiterals(members: seq<Member>)
    ensures forall c :: c in MemberCalls(members) ==> !c.PutLiteral?
    decreases members, 1
  {
    if members != [] {
      NoLiterals(members[0].value);
      MembersNoLiterals(members[1..]);
    }
  }

  /** For every value, whatever its nesting and its empty containers. */
  lemma PrintsIff(w: Writer, v: Json)
    requires |w.levels| > 0 && w.out == "" && Countable(v)
    ensures Replay(Reset(w), Calls(v)).out == Print(v) <==> FitsLevels(v, |w.levels|)
  {
    hide Replay, Calls, Print, Parse, Countable, SameSeparators;
    var bottom := Level(0, false);
    var roomy := Writer(seq(Depth(v) + 1, _ => bottom), 0, "");
    StreamRoundTrip(roomy, v);
    NoLiterals(v);
    assert Reset(roomy) == roomy;
    assert Reset(w).levels[..1] == [bottom] && roomy.levels[..1] == [bottom];
    Lockstep(Reset(w), [bottom], roomy, [bottom], Calls(v));
  }

  /** Two array levels, the lower one current if curr is 0. */
  function TwoLevels(m: nat, n: nat, curr: nat, out: string): Writer {
    Writer([Level(m, false), Level(n, false)], curr, out)
  }

  lemma ExampleCalls()
    ensures Calls(Arr([Arr([]), Arr([Int(1)])]))
            == [ArrayOpen] + ([ArrayOpen, ArrayClose] + [ArrayOpen, PutInteger(1), ArrayClose] + [ArrayClose])
  {
    var one, none := Arr([Int(1)]), Arr([]);
    assert [none, one][1..] == [one] && [one][1..] == [] && [Int(1)][1..] == [];
    assert ItemCalls([none, one]) == Calls(none) + (Calls(one) + []);
  }

  lemma ExampleText()
    ensures Print(Arr([Arr([]), Arr([Int(1)])])) == "[[],[1]]"
  {
    var one, none := Arr([Int(1)]), Arr([]);
    assert [none, one][1..] == [one] && [one][1..] == [] && [Int(1)][1..] == [];
    assert Print(none) == "[]" && Print(one) == "[1]";
  }

  lemma ExampleSteps(x: Level)
    ensures Apply(Writer([Level(0, false), x], 0, ""), ArrayOpen) == TwoLevels(1, 0, 1, "[")
    ensures Apply(TwoLevels(1, 0, 1, "["), ArrayOpen) == TwoLevels(1, 1, 1, "[[")
    ensures Apply(TwoLevels(1, 1, 1, "[["), ArrayClose) == TwoLevels(1, 1, 0, "[[]")
    ensures Apply(TwoLevels(1, 1, 0, "[[]"), ArrayOpen) == TwoLevels(2, 0, 1, "[[],[")
    ensures Apply(TwoLevels(2, 0, 1, "[[],["), PutInteger(1)) == TwoLevels(2, 1, 1, "[[],[1")
    ensures Apply(TwoLevels(2, 1, 1, "[[],[1"), ArrayClose) == TwoLevels(2, 1, 0, "[[],[1]")
    ensures Apply(TwoLevels(2, 1, 0, "[[],[1]"), ArrayClose) == TwoLevels(2, 1, 0, "[[],[1]]")
  {
  }

  lemma ExampleReplay(x: Level)
    ensures Replay(Writer([Level(0, false), x], 0, ""),
                   [ArrayOpen] + ([ArrayOpen, ArrayClose] + [ArrayOpen, PutInteger(1), ArrayClose] + [ArrayClose])).out
            == "[[],[1]]"
  {
    hide Apply, Replay;
    ExampleSteps(x);
    var w, o := Writer([Level(0, false), x], 0, ""), TwoLevels(1, 0, 1, "[");
    var a, b := [ArrayOpen, ArrayClose], [ArrayOpen, PutInteger(1), ArrayClose];
    ReplayOne(w, ArrayOpen, a + b + [ArrayClose]);
    ReplayAppend(o, a + b, [ArrayClose]);
    ReplayAppend(o, a, b);
    ReplayTwo(o, ArrayOpen, ArrayClose);
    assert b == [ArrayOpen] + [PutInteger(1), ArrayClose];
    ReplayOne(TwoLevels(1, 1, 0, "[[]"), ArrayOpen, [PutInteger(1), ArrayClose]);
    ReplayTwo(TwoLevels(2, 0, 1, "[[],["), PutInteger(1), ArrayClose);
    ReplayOne(TwoLevels(2, 1, 0, "[[],[1]"), ArrayClose, []);
  }

  /** An empty container past the last level can do no harm: [[],[1]] is nested as deep as two levels
      do not allow, and comes out right. */
  lemma EmptyTooDeep(w: Writer)
    requires |w.levels| == 2 && w.out == ""
    ensures var v := Arr([Arr([]), Arr([Int(1)])]);
            Depth(v) == 2 && !Spills(v, 2) && FitsLevels(v, 2) && Replay(Reset(w), Calls(v)).out == Print(v)
  {
    var one, none := Arr([Int(1)]), Arr([]);
    assert [none, one][1..] == [one] && [one][1..] == [] && [Int(1)][1..] == [];
    assert Depth(none) == Depth(one) == 1;
    assert Reset(w) == Writer([Level(0, false), w.levels[1]], 0, "");
    hide Calls, Print, Replay, FitsLevels;
    ExampleCalls();
    ExampleText();
    ExampleReplay(w.levels[1]);
    PrintsIff(w, Arr([none, one]));
  }
}
