/** Log records as text: what a message prints, how split records compose, and how a reader gets them back. */
module LogRecords {
  import opened Bits
  import opened Json
  import opened JsonRoundTrip

  function ByteOf(c: char): Byte {
    if c < 128 as char then c as int else 63
  }

  function Ascii(s: string): (r: seq<Byte>)
    ensures |r| == |s|
  {
    seq(|s|, i requires 0 <= i < |s| => ByteOf(s[i]))
  }

  const LEVEL: seq<Byte> := Ascii("level")
  const COMPONENT: seq<Byte> := Ascii("component")
  const MESSAGE: seq<Byte> := Ascii("message")
  const DATA: seq<Byte> := Ascii("data")

  /** The C type admits numbers outside the enumeration. */
  function LevelName(level: int): seq<Byte> {
    match level
    case 0 => Ascii("DEBUG")
    case 1 => Ascii("INFO")
    case 2 => Ascii("WARNING")
    case 3 => Ascii("ERROR")
    case 4 => Ascii("FATAL")
    case _ => Ascii("UNKNOWN")
  }

  /** One trailing newline is dropped. */
  function Trimmed(message: seq<Byte>): seq<Byte> {
    if message != [] && message[|message| - 1] == 10 then message[..|message| - 1] else message
  }

  datatype Entry = Entry(level: seq<Byte>, component: seq<Byte>, message: seq<Byte>, data: Option<Json>)

  function Head(e: Entry): seq<Member> {
    [Member(LEVEL, Str(e.level)), Member(COMPONENT, Str(e.component)), Member(MESSAGE, Str(e.message))]
  }

  function Members(e: Entry): seq<Member> {
    if e.data.Some? then Head(e) + [Member(DATA, e.data.value)] else Head(e)
  }

  function Body(e: Entry): string {
    Print(Obj(Members(e)))
  }

  function Record(e: Entry): string {
    Body(e) + "\n"
  }

  // ----- Sizes -----

  lemma QuoteLength(s: seq<Byte>)
    ensures |Quote(s)| <= 6 * |s| + 2
  {
    EscapePrintable(s);
  }

  lemma {:induction false} PlainEscape(s: seq<Byte>)
    requires forall i :: 0 <= i < |s| ==> 0x20 <= s[i] < 127 && s[i] != 0x5C && s[i] != 0x22
    ensures |Quote(s)| == |s| + 2
  {
    if s != [] {
      PlainEscape(s[1..]);
    }
  }

  lemma AsciiPlain(s: string)
    requires forall i :: 0 <= i < |s| ==> 'A' <= s[i] <= 'z' && s[i] != '\\'
    ensures |Quote(Ascii(s))| == |s| + 2 && 0 !in Ascii(s)
    ensures forall i :: 0 <= i < |s| ==> Ascii(s)[i] == s[i] as int
  {
    PlainEscape(Ascii(s));
  }

  lemma LevelNamePlain(level: int)
    ensures |Quote(LevelName(level))| <= 9 && 0 !in LevelName(level)
  {
    match level {
      case 0 => AsciiPlain("DEBUG");
      case 1 => AsciiPlain("INFO");
      case 2 => AsciiPlain("WARNING");
      case 3 => AsciiPlain("ERROR");
      case 4 => AsciiPlain("FATAL");
      case _ => AsciiPlain("UNKNOWN");
    }
  }

  lemma FieldNames()
    ensures |Quote(LEVEL)| == 7 && |Quote(COMPONENT)| == 11 && |Quote(MESSAGE)| == 9 && |Quote(DATA)| == 6
    ensures 0 !in LEVEL && 0 !in COMPONENT && 0 !in MESSAGE && 0 !in DATA
  {
    hide Ascii, Quote;
    AsciiPlain("level");
    AsciiPlain("component");
    AsciiPlain("message");
    AsciiPlain("data");
  }

  lemma HeadPrint(e: Entry)
    ensures PrintMembers(Head(e), true)
            == Quote(LEVEL) + ":" + Quote(e.level) + "," + Quote(COMPONENT) + ":" + Quote(e.component)
               + "," + Quote(MESSAGE) + ":" + Quote(e.message)
  {
    hide Quote, Ascii;
    var m1, m2, m3 := Head(e)[0], Head(e)[1], Head(e)[2];
    assert Head(e)[1..] == [m2, m3] && [m2, m3][1..] == [m3] && [m3][1..] == [];
    assert PrintMembers([m3], false) == "," + Quote(MESSAGE) + ":" + Quote(e.message) + "";
    assert PrintMembers([m2, m3], false)
        == "," + Quote(COMPONENT) + ":" + Quote(e.component) + PrintMembers([m3], false);
    assert PrintMembers(Head(e), true)
        == "" + Quote(LEVEL) + ":" + Quote(e.level) + PrintMembers([m2, m3], false);
  }

  /** At most six output bytes per input byte, and 48 for the frame. */
  lemma RecordLength(level: int, component: seq<Byte>, message: seq<Byte>)
    ensures |Record(Entry(LevelName(level), component, message, None))| <= 48 + 6 * (|component| + |message|)
  {
    hide Quote, Ascii, LevelName, PrintMembers;
    var e := Entry(LevelName(level), component, message, None);
    HeadPrint(e);
    FieldNames();
    LevelNamePlain(level);
    QuoteLength(component);
    QuoteLength(message);
  }

  // ----- Split records -----

  /** The part before the data value. */
  function Opening(e: Entry): string {
    "{" + PrintMembers(Head(e), true) + "," + Quote(DATA) + ":"
  }

  lemma {:induction false} MembersOneMore(ms: seq<Member>, m: Member, first: bool)
    ensures PrintMembers(ms + [m], first)
            == PrintMembers(ms, first) + (if first && ms == [] then "" else ",") + Quote(m.key) + ":" + Print(m.value)
    decreases |ms|
  {
    hide Quote, Print;
    var q, p := Quote(m.key), Print(m.value);
    if ms == [] {
      assert ms + [m] == [m] && [m][1..] == [];
    } else {
      var a, b := ms[0], ms[1..];
      assert (ms + [m])[0] == a && (ms + [m])[1..] == b + [m];
      MembersOneMore(b, m, false);
      var head := (if first then "" else ",") + Quote(a.key) + ":" + Print(a.value);
      var rest := PrintMembers(b, false);
      Append(head, rest, ",");
      Append(head, rest + ",", q);
      Append(head, rest + "," + q, ":");
      Append(head, rest + "," + q + ":", p);
    }
  }

  /** Opening, value and closing brace written separately are one four-field object. */
  lemma SplitRecord(e: Entry, v: Json)
    requires e.data == Some(v)
    ensures Opening(e) + Print(v) + "}" + "\n" == Record(e)
  {
    hide Quote, Ascii;
    MembersOneMore(Head(e), Member(DATA, v), true);
    var h, q, p := PrintMembers(Head(e), true), Quote(DATA), Print(v);
    Append("{", h, ",");
    Append("{", h + ",", q);
    Append("{", h + "," + q, ":");
    Append("{", h + "," + q + ":", p);
  }

  // ----- Reading records back -----

  function FirstNewline(s: string): (i: nat)
    ensures i <= |s|
  {
    if s == "" || s[0] == '\n' then 0 else 1 + FirstNewline(s[1..])
  }

  /** The complete lines of a log, without their newlines. */
  function Lines(s: string): seq<string>
    decreases |s|
  {
    var i := FirstNewline(s);
    if i == |s| then [] else [s[..i]] + Lines(s[i + 1..])
  }

  /** A repeated key keeps its last value. */
  function Lookup(ms: seq<Member>, key: seq<Byte>): Option<Json> {
    if ms == [] then None
    else if ms[|ms| - 1].key == key then Some(ms[|ms| - 1].value)
    else Lookup(ms[..|ms| - 1], key)
  }

  /** The log viewer's reading of one line. Its strings are code points, here the bytes of the same number. */
  function ParseEntry(line: string): Option<Entry> {
    match Parse(line)
    case Some(Obj(ms)) =>
      (match (Lookup(ms, LEVEL), Lookup(ms, COMPONENT), Lookup(ms, MESSAGE))
       case (Some(Str(l)), Some(Str(c)), Some(Str(m))) => Some(Entry(l, c, m, Lookup(ms, DATA)))
       case _ => None)
    case _ => None
  }

  function ReadAll(lines: seq<string>): seq<Option<Entry>> {
    if lines == [] then [] else [ParseEntry(lines[0])] + ReadAll(lines[1..])
  }

  function Log(es: seq<Entry>): string {
    if es == [] then "" else Record(es[0]) + Log(es[1..])
  }

  function Found(es: seq<Entry>): seq<Option<Entry>> {
    if es == [] then [] else [Some(es[0])] + Found(es[1..])
  }

  lemma {:induction false} LogOneMore(es: seq<Entry>, e: Entry)
    ensures Log(es + [e]) == Log(es) + Record(e)
    decreases |es|
  {
    hide Record;
    if es == [] {
      assert es + [e] == [e] && [e][1..] == [] && Record(e) + "" == Record(e);
    } else {
      assert (es + [e])[0] == es[0] && (es + [e])[1..] == es[1..] + [e];
      LogOneMore(es[1..], e);
      Append(Record(es[0]), Log(es[1..]), Record(e));
    }
  }

  lemma {:induction false} NewlineAfter(s: string, t: string)
    requires Printable(s)
    ensures FirstNewline(s + "\n" + t) == |s|
  {
    var all := s + "\n" + t;
    if s == "" {
      assert all[0] == '\n';
    } else {
      assert s[0] in s && all[0] == s[0] && all[1..] == s[1..] + "\n" + t;
      assert forall c :: c in s[1..] ==> c in s;
      NewlineAfter(s[1..], t);
    }
  }

  lemma FieldsDistinct()
    ensures LEVEL != COMPONENT && LEVEL != MESSAGE && LEVEL != DATA
    ensures COMPONENT != MESSAGE && COMPONENT != DATA && MESSAGE != DATA
  {
    assert |LEVEL| == 5 && |COMPONENT| == 9 && |MESSAGE| == 7 && |DATA| == 4;
  }

  lemma HeadLookup(e: Entry)
    ensures Lookup(Head(e), LEVEL) == Some(Str(e.level))
    ensures Lookup(Head(e), COMPONENT) == Some(Str(e.component))
    ensures Lookup(Head(e), MESSAGE) == Some(Str(e.message))
    ensures Lookup(Head(e), DATA) == None
  {
    hide Ascii;
    FieldsDistinct();
    var h := Head(e);
    var two, one := h[..2], h[..1];
    assert two[..1] == one && one[..0] == [];
    assert Lookup(one, LEVEL) == Some(Str(e.level)) == Lookup(two, LEVEL);
    assert Lookup(one, DATA) == None == Lookup(two, DATA);
  }

  /** A record's line holds printable ASCII only, and the viewer reads the entry from it. */
  lemma EntryRoundTrip(e: Entry)
    ensures Printable(Body(e)) && ParseEntry(Body(e)) == Some(e)
  {
    hide Ascii, Print, Parse;
    var ms := Members(e);
    PrintPrintable(Obj(ms));
    ParsePrint(Obj(ms));
    HeadLookup(e);
    FieldsDistinct();
    if e.data.Some? {
      assert ms[..|ms| - 1] == Head(e);
    }
  }

  /** Splitting a log at newlines and reading each line recovers every entry, whatever bytes the entries hold. */
  lemma {:induction false} LogRoundTrip(es: seq<Entry>)
    ensures ReadAll(Lines(Log(es))) == Found(es)
  {
    hide Body, ParseEntry;
    if es != [] {
      var e, rest := es[0], Log(es[1..]);
      var s := Log(es);
      EntryRoundTrip(e);
      assert s == Body(e) + "\n" + rest;
      NewlineAfter(Body(e), rest);
      assert s[..|Body(e)|] == Body(e) && s[|Body(e)| + 1..] == rest;
      LogRoundTrip(es[1..]);
      var lines := Lines(s);
      assert lines == [Body(e)] + Lines(rest);
      assert lines[1..] == Lines(rest);
    }
  }

  // ----- The records themselves -----

  /** Only a newline at the very end goes, and only one. */
  lemma TrimmedIs(m: seq<Byte>)
    ensures m == if m != [] && m[|m| - 1] == 10 then Trimmed(m) + [10] else Trimmed(m)
  {
  }

  /** What the viewer reads as the level. */
  lemma LevelTexts(level: int)
    ensures Ascii("DEBUG") == LevelName(0) && Ascii("INFO") == LevelName(1) && Ascii("WARNING") == LevelName(2)
    ensures Ascii("ERROR") == LevelName(3) && Ascii("FATAL") == LevelName(4)
    ensures !(0 <= level <= 4) ==> LevelName(level) == Ascii("UNKNOWN")
  {
  }

  /** Printable and free of quotes and backslashes. */
  predicate PlainText(s: string) {
    forall i :: 0 <= i < |s| ==> ' ' <= s[i] <= '~' && s[i] != '"' && s[i] != '\\'
  }

  lemma {:induction false} PlainQuote(s: string)
    requires PlainText(s)
    ensures Quote(Ascii(s)) == "\"" + s + "\""
  {
    if s != "" {
      PlainQuote(s[1..]);
      var a := Ascii(s);
      assert a[0] == s[0] as int && a[1..] == Ascii(s[1..]);
      assert Escape(Ascii(s[1..])) == Quote(Ascii(s[1..]))[1..|s|] == s[1..];
      assert Escape(a) == [s[0]] + s[1..] == s;
    } else {
      assert Ascii(s) == [];
    }
  }

  lemma KeysQuoted()
    ensures Quote(LEVEL) == "\"level\"" && Quote(COMPONENT) == "\"component\""
    ensures Quote(MESSAGE) == "\"message\"" && Quote(DATA) == "\"data\""
  {
    hide Quote;
    PlainQuote("data");
    PlainQuote("level");
    PlainQuote("component");
    PlainQuote("message");
  }

  lemma JoinHead(a: string, b: string, c: string)
    ensures "\"level\"" + ":" + ("\"" + a + "\"") + "," + "\"component\"" + ":" + ("\"" + b + "\"")
            + "," + "\"message\"" + ":" + ("\"" + c + "\"")
            == "\"level\":\"" + a + "\",\"component\":\"" + b + "\",\"message\":\"" + c + "\""
  {
    var s := "\"level\"" + ":" + ("\"" + a + "\"");
    assert s == "\"level\":\"" + a + "\"";
    var t := s + "," + "\"component\"" + ":" + ("\"" + b + "\"");
    assert t == "\"level\":\"" + a + "\",\"component\":\"" + b + "\"";
  }

  lemma PlainHead(e: Entry, level: string, component: string, message: string)
    requires PlainText(level) && PlainText(component) && PlainText(message)
    requires e == Entry(Ascii(level), Ascii(component), Ascii(message), None)
    ensures PrintMembers(Head(e), true)
            == "\"level\":\"" + level + "\",\"component\":\"" + component + "\",\"message\":\"" + message + "\""
  {
    hide Ascii, Quote, PlainText, PrintMembers;
    HeadPrint(e);
    KeysQuoted();
    PlainQuote(level);
    PlainQuote(component);
    PlainQuote(message);
    JoinHead(level, component, message);
  }

  /** The record of plain texts, character by character. */
  lemma PlainRecord(level: string, component: string, message: string)
    requires PlainText(level) && PlainText(component) && PlainText(message)
    ensures Record(Entry(Ascii(level), Ascii(component), Ascii(message), None))
            == "{" + ("\"level\":\"" + level + "\",\"component\":\"" + component + "\",\"message\":\"" + message + "\"")
               + "}" + "\n"
  {
    hide Ascii, Quote, PlainText, PrintMembers, Head;
    var e := Entry(Ascii(level), Ascii(component), Ascii(message), None);
    PlainHead(e, level, component, message);
    PrintObject(Head(e));
  }

  /** The opening of a streamed record of plain texts, up to where the data value goes. */
  lemma PlainOpening(level: string, component: string, message: string)
    requires PlainText(level) && PlainText(component) && PlainText(message)
    ensures Opening(Entry(Ascii(level), Ascii(component), Ascii(message), None))
            == "{" + ("\"level\":\"" + level + "\",\"component\":\"" + component + "\",\"message\":\"" + message + "\"")
               + "," + "\"data\"" + ":"
  {
    hide Ascii, Quote, PlainText, PrintMembers, Head;
    PlainHead(Entry(Ascii(level), Ascii(component), Ascii(message), None), level, component, message);
    KeysQuoted();
  }
}
