/** Parsing the compact print gives the value back, and the print is one line of printable ASCII. */
module JsonRoundTrip {
  import opened Bits
  import opened Json

  // ----- Numbers -----

  lemma DigitReads(d: nat)
    requires d < 10
    ensures IsDigit(Digit(d)) && DigitValue(Digit(d)) == d
  {
  }

  lemma {:induction false} NaturalValue(n: nat)
    ensures forall c :: c in Natural(n) ==> IsDigit(c)
    ensures Value(Natural(n)) == n
    ensures Natural(n)[0] == '0' <==> n == 0
  {
    DigitReads(n % 10);
    if n < 10 {
      assert Natural(n)[..0] == "";
    } else {
      NaturalValue(n / 10);
      var s := Natural(n);
      assert s[..|s| - 1] == Natural(n / 10);
    }
  }

  lemma {:induction false} DigitRunWhole(s: string, t: string)
    requires forall c :: c in s ==> IsDigit(c)
    requires t == "" || !IsDigit(t[0])
    ensures DigitRun(s + t) == |s|
  {
    if s == "" {
      assert s + t == t;
    } else {
      assert (s + t)[1..] == s[1..] + t;
      assert s[0] in s;
      DigitRunWhole(s[1..], t);
    }
  }

  lemma ParseNaturalPrint(n: nat, t: string)
    requires t == "" || !IsDigit(t[0])
    ensures ParseNatural(Natural(n) + t) == Some((n, t))
  {
    var s := Natural(n);
    NaturalValue(n);
    DigitRunWhole(s, t);
    assert (s + t)[..|s|] == s && (s + t)[|s|..] == t;
    assert (s + t)[0] == s[0];
    if n == 0 {
      assert s == "0";
    }
  }

  lemma ParseIntPrint(n: int, t: string)
    requires t == "" || !IsDigit(t[0])
    ensures ParseInt(Decimal(n) + t) == Some((n, t))
    ensures Decimal(n)[0] == '-' || IsDigit(Decimal(n)[0])
  {
    hide ParseNatural, Natural;
    var m: nat := if n < 0 then -n else n;
    var s := Natural(m);
    ParseNaturalPrint(m, t);
    NaturalValue(m);
    assert s[0] in s;
    if n < 0 {
      assert Decimal(n) + t == "-" + (s + t);
      assert ("-" + (s + t))[1..] == s + t;
    } else {
      assert (s + t)[0] == s[0];
    }
  }

  // ----- Strings -----

  lemma HexDigitValue(d: nat)
    requires d < 16
    ensures HexValue(HexDigit(d)) == Some(d) && ' ' <= HexDigit(d) <= '~'
  {
  }

  lemma ParseEscapedByte(b: Byte, t: string)
    ensures ParseChar(EscapeByte(b) + t) == Some((b, t))
    ensures |EscapeByte(b)| > 0 && EscapeByte(b)[0] != '"'
  {
    var e := EscapeByte(b);
    var s := e + t;
    assert s[|e|..] == t;
    if b < 0x20 || b >= 127 {
      HexDigitValue(b / 16);
      HexDigitValue(b % 16);
      assert s[2..][0] == '0' && s[2..][1] == '0' && s[2..][2] == e[4] && s[2..][3] == e[5];
    }
  }

  lemma {:induction false} EscapeOneMore(s: seq<Byte>, b: Byte)
    ensures Escape(s + [b]) == Escape(s) + EscapeByte(b)
  {
    hide EscapeByte;
    if s == [] {
      assert Escape([b]) == EscapeByte(b) + Escape([]);
      assert s + [b] == [b];
    } else {
      assert (s + [b])[1..] == s[1..] + [b];
      EscapeOneMore(s[1..], b);
    }
  }

  lemma {:induction false} ParseEscaped(bytes: seq<Byte>, t: string)
    ensures ParseChars(Escape(bytes) + "\"" + t) == Some((bytes, t))
  {
    var s := Escape(bytes) + "\"" + t;
    if bytes == [] {
      assert s == "\"" + t;
    } else {
      var rest := Escape(bytes[1..]) + "\"" + t;
      assert s == EscapeByte(bytes[0]) + rest;
      ParseEscapedByte(bytes[0], rest);
      ParseEscaped(bytes[1..], t);
      assert [bytes[0]] + bytes[1..] == bytes;
    }
  }

  lemma ParseQuoted(bytes: seq<Byte>, t: string)
    ensures ParseString(Quote(bytes) + t) == Some((bytes, t))
  {
    ParseEscaped(bytes, t);
    assert (Quote(bytes) + t)[1..] == Escape(bytes) + "\"" + t;
  }

  // ----- Values -----

  predicate StartsValue(c: char) {
    c == 'n' || c == 't' || c == 'f' || c == '"' || c == '[' || c == '{' || c == '-' || IsDigit(c)
  }

  lemma PrintStarts(v: Json)
    ensures |Print(v)| > 0 && StartsValue(Print(v)[0])
  {
    if v.Int? {
      ParseIntPrint(v.n, "");
    }
  }

  /** What may follow a value without being read as part of it. */
  predicate Delimited(t: string) {
    t == "" || !IsDigit(t[0])
  }

  lemma WordRoundTrip(word: string, v: Json, t: string)
    requires word != ""
    ensures ParseWord(word + t, word, v) == Some((v, t))
  {
    assert (word + t)[|word|..] == t;
  }

  lemma WordValue(v: Json, t: string)
    requires v.Null? || v.Bool?
    ensures ParseValue(Print(v) + t) == Some((v, t))
  {
    var word := Print(v);
    WordRoundTrip(word, v, t);
    assert (word + t)[0] == word[0];
  }

  lemma ParseNumber(n: int, t: string)
    requires Delimited(t)
    ensures ParseValue(Decimal(n) + t) == Some((Int(n), t))
  {
    var s := Decimal(n) + t;
    ParseIntPrint(n, t);
    assert s[0] == Decimal(n)[0];
  }

  lemma ParseText(bytes: seq<Byte>, t: string)
    ensures ParseValue(Quote(bytes) + t) == Some((Str(bytes), t))
  {
    ParseQuoted(bytes, t);
    assert (Quote(bytes) + t)[0] == '"';
  }

  /** An opening bracket followed by items. */
  lemma ParseArray(inner: string, items: seq<Json>, t: string)
    requires inner != "" && StartsValue(inner[0]) && ParseItems(inner) == Some((items, t))
    ensures ParseValue("[" + inner) == Some((Arr(items), t))
  {
    hide ParseItems, ParseMembers, ParseString, Natural;
    var s := "[" + inner;
    assert s[0] == '[' && s[1..] == inner;
  }

  lemma ParseObject(inner: string, members: seq<Member>, t: string)
    requires inner != "" && inner[0] == '"' && ParseMembers(inner) == Some((members, t))
    ensures ParseValue("{" + inner) == Some((Obj(members), t))
  {
    assert ("{" + inner)[1..] == inner;
  }

  lemma EmptyContainers(t: string)
    ensures ParseValue("[]" + t) == Some((Arr([]), t))
    ensures ParseValue("{}" + t) == Some((Obj([]), t))
  {
    var a, o := "[]" + t, "{}" + t;
    assert a[0] == '[' && a[1..][0] == ']' && a[2..] == t;
    assert o[0] == '{' && o[1..][0] == '}' && o[2..] == t;
  }

  lemma {:induction false} RoundTrip(v: Json, t: string)
    requires Delimited(t)
    ensures ParseValue(Print(v) + t) == Some((v, t))
    decreases v, 0
  {
    hide ParseValue;
    match v {
      case Null =>
        WordValue(v, t);
      case Bool(b) =>
        WordValue(v, t);
      case Int(n) =>
        ParseNumber(n, t);
      case Str(bytes) =>
        ParseText(bytes, t);
      case Arr(items) =>
        ArrayRoundTrip(items, t);
      case Obj(members) =>
        ObjectRoundTrip(members, t);
    }
  }

  lemma {:induction false} ArrayRoundTrip(items: seq<Json>, t: string)
    ensures ParseValue(Print(Arr(items)) + t) == Some((Arr(items), t))
    decreases items, 2
  {
    hide ParseValue, ParseItems;
    if items == [] {
      EmptyContainers(t);
      assert Print(Arr(items)) == "[]";
    } else {
      ItemsRoundTrip(items, t);
      ItemsStart(items, "]" + t);
      var inner := PrintItems(items, true) + ("]" + t);
      ParseArray(inner, items, t);
      assert Print(Arr(items)) + t == "[" + inner;
    }
  }

  lemma {:induction false} ObjectRoundTrip(members: seq<Member>, t: string)
    ensures ParseValue(Print(Obj(members)) + t) == Some((Obj(members), t))
    decreases members, 2
  {
    hide ParseValue, ParseMembers, PrintMembers;
    if members == [] {
      EmptyContainers(t);
      PrintEmptyObject();
    } else {
      MembersRoundTrip(members, t);
      var body := PrintMembers(members, true);
      MembersStart(members, "}" + t);
      ParseObject(body + ("}" + t), members, t);
      Append("{" + body, "}", t);
      Append("{", body, "}" + t);
    }
  }

  lemma PrintEmptyObject()
    ensures Print(Obj([])) == "{}"
  {
  }

  lemma MembersStart(members: seq<Member>, t: string)
    requires members != []
    ensures var s := PrintMembers(members, true) + t; s != "" && s[0] == '"'
  {
    MembersSplit(members, t);
    assert Quote(members[0].key)[0] == '"';
  }

  lemma ItemsStart(items: seq<Json>, t: string)
    requires items != []
    ensures var s := PrintItems(items, true) + t; s != "" && StartsValue(s[0])
  {
    PrintStarts(items[0]);
    var s := PrintItems(items, true);
    assert s == Print(items[0]) + PrintItems(items[1..], false);
    assert s[0] == Print(items[0])[0];
  }

  // One round of the list parsers.

  lemma ParseLastItem(s: string, v: Json, t: string)
    requires ParseValue(s) == Some((v, "]" + t))
    ensures ParseItems(s) == Some(([v], t))
  {
    assert ("]" + t)[1..] == t;
  }

  lemma ParseNextItem(s: string, v: Json, inner: string, vs: seq<Json>, t: string)
    requires ParseValue(s) == Some((v, "," + inner)) && ParseItems(inner) == Some((vs, t))
    ensures ParseItems(s) == Some(([v] + vs, t))
  {
    assert ("," + inner)[1..] == inner;
  }

  lemma ParseLastMember(s: string, k: seq<Byte>, body: string, v: Json, t: string)
    requires ParseString(s) == Some((k, ":" + body)) && ParseValue(body) == Some((v, "}" + t))
    ensures ParseMembers(s) == Some(([Member(k, v)], t))
  {
    assert (":" + body)[1..] == body && ("}" + t)[1..] == t;
  }

  lemma ParseNextMember(s: string, k: seq<Byte>, body: string, v: Json, inner: string, ms: seq<Member>, t: string)
    requires ParseString(s) == Some((k, ":" + body)) && ParseValue(body) == Some((v, "," + inner))
    requires ParseMembers(inner) == Some((ms, t))
    ensures ParseMembers(s) == Some(([Member(k, v)] + ms, t))
  {
    assert (":" + body)[1..] == body && ("," + inner)[1..] == inner;
  }

  lemma Append(a: string, b: string, c: string)
    ensures a + b + c == a + (b + c)
  {
  }

  lemma ItemsSplit(items: seq<Json>, t: string)
    requires items != []
    ensures PrintItems(items, true) + t == Print(items[0]) + (PrintItems(items[1..], false) + t)
    ensures PrintItems(items, false) + t == "," + (PrintItems(items, true) + t)
  {
    hide Print;
    var p, r := Print(items[0]), PrintItems(items[1..], false);
    assert "" + p == p;
    Append(p, r, t);
    Append(",", p, r);
    Append(",", p + r, t);
  }

  lemma MembersSplit(members: seq<Member>, t: string)
    requires members != []
    ensures var m := members[0];
            PrintMembers(members, true) + t
            == Quote(m.key) + (":" + (Print(m.value) + (PrintMembers(members[1..], false) + t)))
    ensures PrintMembers(members, false) + t == "," + (PrintMembers(members, true) + t)
  {
    hide Print, Quote;
    var q, p, r := Quote(members[0].key), Print(members[0].value), PrintMembers(members[1..], false);
    assert "" + q == q;
    var all := q + ":" + p + r;
    Append(q + ":" + p, r, t);
    Append(q + ":", p, r + t);
    Append(q, ":", p + (r + t));
    Append(",", q, ":");
    Append(",", q + ":", p);
    Append(",", q + ":" + p, r);
    Append(",", all, t);
  }

  lemma {:induction false} ItemsRoundTrip(items: seq<Json>, t: string)
    requires items != []
    ensures ParseItems(PrintItems(items, true) + ("]" + t)) == Some((items, t))
    decreases items, 1
  {
    hide ParseValue, ParseItems, Print;
    var v, vs := items[0], items[1..];
    ItemsSplit(items, "]" + t);
    var s, rest := PrintItems(items, true) + ("]" + t), PrintItems(vs, false) + ("]" + t);
    if vs == [] {
      assert rest == "]" + t && items == [v];
      RoundTrip(v, rest);
      ParseLastItem(s, v, t);
    } else {
      ItemsSplit(vs, "]" + t);
      RoundTrip(v, rest);
      ItemsRoundTrip(vs, t);
      ParseNextItem(s, v, PrintItems(vs, true) + ("]" + t), vs, t);
      assert [v] + vs == items;
    }
  }

  lemma {:induction false} MembersRoundTrip(members: seq<Member>, t: string)
    requires members != []
    ensures ParseMembers(PrintMembers(members, true) + ("}" + t)) == Some((members, t))
    decreases members, 1
  {
    hide ParseValue, ParseMembers, ParseString, Print, Quote;
    var m, ms := members[0], members[1..];
    var k, v := m.key, m.value;
    MembersSplit(members, "}" + t);
    var s, rest := PrintMembers(members, true) + ("}" + t), PrintMembers(ms, false) + ("}" + t);
    var body := Print(v) + rest;
    ParseQuoted(k, ":" + body);
    if ms == [] {
      assert rest == "}" + t && members == [Member(k, v)];
      RoundTrip(v, rest);
      ParseLastMember(s, k, body, v, t);
    } else {
      MembersSplit(ms, "}" + t);
      RoundTrip(v, rest);
      MembersRoundTrip(ms, t);
      ParseNextMember(s, k, body, v, PrintMembers(ms, true) + ("}" + t), ms, t);
      assert [Member(k, v)] + ms == members;
    }
  }

  lemma ParsePrint(v: Json)
    ensures Parse(Print(v)) == Some(v)
  {
    RoundTrip(v, "");
    assert Print(v) + "" == Print(v);
  }

  // ----- One printable line -----

  predicate Printable(s: string) {
    forall c :: c in s ==> ' ' <= c <= '~'
  }

  lemma {:induction false} EscapePrintable(s: seq<Byte>)
    ensures Printable(Escape(s)) && |Escape(s)| <= 6 * |s|
  {
    if s != [] {
      var b := s[0];
      assert Printable(EscapeByte(b)) by {
        HexDigitValue(b / 16);
        HexDigitValue(b % 16);
      }
      EscapePrintable(s[1..]);
    }
  }

  lemma DecimalPrintable(n: int)
    ensures Printable(Decimal(n))
  {
    NaturalValue(if n < 0 then -n else n);
  }

  lemma {:induction false} PrintPrintable(v: Json)
    ensures Printable(Print(v))
    decreases v, 0
  {
    hide Decimal, Escape, PrintItems, PrintMembers;
    match v {
      case Null =>
      case Bool(_) =>
      case Int(n) =>
        DecimalPrintable(n);
      case Str(s) =>
        EscapePrintable(s);
      case Arr(items) =>
        ItemsPrintable(items, true);
      case Obj(members) =>
        MembersPrintable(members, true);
    }
  }

  lemma {:induction false} ItemsPrintable(items: seq<Json>, first: bool)
    ensures Printable(PrintItems(items, first))
    decreases items, 1
  {
    if items != [] {
      PrintPrintable(items[0]);
      ItemsPrintable(items[1..], false);
    }
  }

  lemma {:induction false} MembersPrintable(members: seq<Member>, first: bool)
    ensures Printable(PrintMembers(members, first))
    decreases members, 1
  {
    hide Print, Escape;
    if members != [] {
      EscapePrintable(members[0].key);
      PrintPrintable(members[0].value);
      MembersPrintable(members[1..], false);
    }
  }

  // ----- The compact print itself -----

  /** A minus sign stands in front of negative numbers only. */
  lemma DecimalSign(n: int)
    ensures Decimal(n) != "" && (Decimal(n)[0] == '-' <==> n < 0)
  {
    NaturalValue(if n < 0 then -n else n);
    var s := Natural(if n < 0 then -n else n);
    assert s[0] in s;
  }

  lemma NaturalOfDigit(s: string)
    requires |s| == 1 && IsDigit(s[0])
    ensures Natural(Value(s)) == s
  {
    assert s[..0] == "" && s == [s[0]];
  }

  lemma NaturalOneMore(q: nat, c: char)
    requires q > 0 && IsDigit(c)
    ensures Natural(q * 10 + DigitValue(c)) == Natural(q) + [c]
  {
    var n := q * 10 + DigitValue(c);
    assert n / 10 == q && n % 10 == DigitValue(c);
  }

  lemma {:induction false} NaturalOfValue(s: string)
    requires s != "" && (forall c :: c in s ==> IsDigit(c)) && (s[0] != '0' || |s| == 1)
    ensures Natural(Value(s)) == s
    decreases |s|
  {
    hide Natural, DigitValue;
    var n := |s| - 1;
    var c := s[n];
    assert c in s && s[0] in s;
    if n == 0 {
      NaturalOfDigit(s);
    } else {
      NaturalOfValue(s[..n]);
      NaturalValue(Value(s[..n]));
      NaturalOneMore(Value(s[..n]), c);
      assert s == s[..n] + [c];
    }
  }

  lemma NaturalText(s: string, n: nat)
    requires ParseNatural(s) == Some((n, ""))
    ensures s == Natural(n)
  {
    var k := DigitRun(s);
    if s[0] == '0' {
      assert s == [s[0]] + s[1..];
    } else {
      assert s[k..] == "" && k == |s| && s[..k] == s;
      NaturalOfValue(s);
    }
  }

  lemma IntText(s: string, n: int)
    requires ParseInt(s) == Some((n, ""))
    ensures s == Decimal(n) || (n == 0 && s == "-0")
  {
    hide ParseNatural, Natural;
    if s != "" && s[0] == '-' {
      NaturalText(s[1..], -n);
      assert s == "-" + s[1..];
      NaturalZero();
    } else {
      NaturalText(s, n);
    }
  }

  lemma NaturalZero()
    ensures Natural(0) == "0"
  {
  }

  lemma ZeroTexts()
    ensures Parse("-0") == Some(Int(0)) && Decimal(0) == "0"
  {
    ParseNaturalPrint(0, "");
    NaturalZero();
    assert "0" + "" == "0" && "-0"[1..] == "0";
  }

  /** A reader that takes only what the writer could mean: no other text of an integer is as short as its print. */
  lemma IntTexts(s: string, n: int)
    ensures Parse(s) == Some(Int(n)) <==> s == Print(Int(n)) || (n == 0 && s == "-0")
  {
    if Parse(s) == Some(Int(n)) {
      ParsesAsInt(s, n);
      IntText(s, n);
    }
    ParsePrint(Int(n));
    ZeroTexts();
  }

  lemma ParsesAsInt(s: string, n: int)
    requires Parse(s) == Some(Int(n))
    ensures ParseInt(s) == Some((n, ""))
  {
    hide ParseInt, ParseItems, ParseMembers, ParseString;
  }

  /** Control characters and bytes from 127 on take four lower-case hexadecimal digits; quote and backslash take
      a backslash; any other byte stands for itself. */
  lemma EscapeText(b: Byte)
    ensures b < 0x20 || b >= 127 ==>
              EscapeByte(b) == "\\u00" + ["0123456789abcdef"[b / 16], "0123456789abcdef"[b % 16]]
    ensures b == 0x22 ==> EscapeByte(b) == "\\\""
    ensures b == 0x5C ==> EscapeByte(b) == "\\\\"
    ensures 0x20 <= b < 127 && b != 0x22 && b != 0x5C ==> EscapeByte(b) == [b as char]
  {
    HexText(b / 16);
    HexText(b % 16);
  }

  /** Forms that the writer does not use and a reader accepts: short escapes, capital hexadecimal digits. */
  lemma ParseOtherForms(t: string)
    ensures ParseChar("\\b" + t) == Some((8, t)) && ParseChar("\\t" + t) == Some((9, t))
    ensures ParseChar("\\n" + t) == Some((10, t)) && ParseChar("\\f" + t) == Some((12, t))
    ensures ParseChar("\\r" + t) == Some((13, t)) && ParseChar("\\/" + t) == Some((0x2F, t))
    ensures ParseChar("\\u00AF" + t) == Some((0xAF, t))
  {
    assert ("\\b" + t)[2..] == t && ("\\t" + t)[2..] == t && ("\\n" + t)[2..] == t;
    assert ("\\f" + t)[2..] == t && ("\\r" + t)[2..] == t && ("\\/" + t)[2..] == t;
    assert ("\\u00AF" + t)[6..] == t && ("\\u00AF" + t)[2..] == "00AF" + t;
  }

  lemma HexText(d: nat)
    requires d < 16
    ensures HexDigit(d) == "0123456789abcdef"[d]
  {
  }

  lemma PrintThree(a: Json, b: Json, c: Json)
    ensures Print(Arr([a, b, c])) == "[" + Print(a) + "," + Print(b) + "," + Print(c) + "]"
  {
    hide Print;
    PrintArray([a, b, c]);
    ItemsOfThree(a, b, c);
    JoinThree(Print(a), Print(b), Print(c));
  }

  lemma ItemsOfThree(a: Json, b: Json, c: Json)
    ensures PrintItems([a, b, c], true) == "" + Print(a) + ("," + Print(b) + ("," + Print(c) + ""))
  {
    hide Print;
    assert [a, b, c][1..] == [b, c] && [b, c][1..] == [c] && [c][1..] == [];
    assert PrintItems([c], false) == "," + Print(c) + PrintItems([], false);
    assert PrintItems([b, c], false) == "," + Print(b) + PrintItems([c], false);
  }

  lemma JoinThree(a: string, b: string, c: string)
    ensures "[" + ("" + a + ("," + b + ("," + c + ""))) + "]" == "[" + a + "," + b + "," + c + "]"
  {
  }

  lemma PrintArray(items: seq<Json>)
    ensures Print(Arr(items)) == "[" + PrintItems(items, true) + "]"
  {
  }

  lemma PrintTwo(k: seq<Byte>, v: Json, l: seq<Byte>, w: Json)
    ensures Print(Obj([Member(k, v), Member(l, w)]))
            == "{" + Quote(k) + ":" + Print(v) + "," + Quote(l) + ":" + Print(w) + "}"
  {
    hide Print, Natural, Quote, PrintItems;
    var m, n := Member(k, v), Member(l, w);
    assert [m, n][1..] == [n] && [n][1..] == [];
    assert PrintMembers([n], false) == "," + Quote(l) + ":" + Print(w) + "";
    assert PrintMembers([m, n], true) == "" + Quote(k) + ":" + Print(v) + PrintMembers([n], false);
    PrintObject([m, n]);
  }

  lemma PrintObject(members: seq<Member>)
    ensures Print(Obj(members)) == "{" + PrintMembers(members, true) + "}"
  {
  }

  lemma SampleKey()
    ensures Quote([10, 0x22, 97]) == "\"\\u000a\\\"a\"" && Quote([]) == "\"\""
  {
    assert [10, 0x22, 97][1..] == [0x22, 97] && [0x22, 97][1..] == [97] && [97][1..] == [];
    assert Escape([97]) == "a";
    assert Escape([0x22, 97]) == "\\\"a";
    assert Escape([10, 0x22, 97]) == "\\u000a\\\"a";
  }

  lemma SampleValues()
    ensures Print(Bool(true)) == "true" && Print(Bool(false)) == "false" && Print(Null) == "null"
    ensures Print(Int(-10)) == "-10" && Print(Arr([])) == "[]" && Print(Obj([])) == "{}"
  {
  }

  lemma SampleTexts()
    ensures "{" + "\"\\u000a\\\"a\"" + ":" + "[true,false,null]" + "," + "\"\"" + ":" + "-10" + "}"
            == "{\"\\u000a\\\"a\":[true,false,null],\"\":-10}"
  {
  }

  lemma SampleArrays()
    ensures "[" + "true" + "," + "false" + "," + "null" + "]" == "[true,false,null]"
    ensures "[" + "[]" + "," + "{}" + "," + "-10" + "]" == "[[],{},-10]"
  {
  }

  /** Every kind of value in one text, without a space. */
  lemma PrintSample()
    ensures Print(Obj([Member([10, 0x22, 97], Arr([Bool(true), Bool(false), Null])), Member([], Int(-10))]))
            == "{\"\\u000a\\\"a\":[true,false,null],\"\":-10}"
    ensures Print(Arr([Arr([]), Obj([]), Int(-10)])) == "[[],{},-10]"
  {
    hide Print, Quote;
    SampleTexts();
    SampleArrays();
    SampleKey();
    SampleValues();
    PrintThree(Bool(true), Bool(false), Null);
    PrintThree(Arr([]), Obj([]), Int(-10));
    PrintTwo([10, 0x22, 97], Arr([Bool(true), Bool(false), Null]), [], Int(-10));
  }
}
