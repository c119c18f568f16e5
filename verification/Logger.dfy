/** The logger: each record is built by a fresh writer in a buffer and handed to every sink. */
module Loggers {
  import opened Bits
  import opened Json
  import opened JsonRoundTrip
  import opened JemsModel
  import opened JemsWriters
  import opened LogRecords
  import opened Sinks

  const MAX_LOG_MESSAGE_SIZE: nat := 4096

  /** The levels of the writers inside the logger, and of the writers that stream a data value. */
  const LOG_LEVELS: nat := 5
  const STREAM_LEVELS: nat := 10

  function HeadCalls(level: int, component: seq<Byte>, message: seq<Byte>): seq<Call> {
    [PutString(LEVEL), PutString(LevelName(level)), PutString(COMPONENT), PutString(component),
     PutString(MESSAGE), PutString(message)]
  }

  lemma TextMemberCalls(key: seq<Byte>, text: seq<Byte>, rest: seq<Member>)
    requires 0 !in key && 0 !in text
    ensures MemberCalls([Member(key, Str(text))] + rest) == [PutString(key), PutString(text)] + MemberCalls(rest)
  {
    var ms := [Member(key, Str(text))] + rest;
    assert ms[1..] == rest;
    assert Calls(ms[0].value) == [PutString(text)];
  }

  /** The head fields' calls are those of the object they belong to. */
  lemma HeadCallsMatch(level: int, component: seq<Byte>, message: seq<Byte>)
    requires 0 !in component && 0 !in message
    ensures MemberCalls(Head(Entry(LevelName(level), component, message, None))) == HeadCalls(level, component, message)
  {
    hide Ascii, LevelName, MemberCalls;
    FieldNames();
    LevelNamePlain(level);
    var h := Head(Entry(LevelName(level), component, message, None));
    TextMemberCalls(MESSAGE, message, []);
    TextMemberCalls(COMPONENT, component, [h[2]]);
    TextMemberCalls(LEVEL, LevelName(level), [h[1], h[2]]);
    JoinMembers(h[0], h[1], h[2]);
    JoinCalls(PutString(LEVEL), PutString(LevelName(level)), PutString(COMPONENT), PutString(component),
              PutString(MESSAGE), PutString(message));
    NoMemberCalls();
  }

  lemma JoinMembers(a: Member, b: Member, c: Member)
    ensures [c] + [] == [c] && [b] + [c] == [b, c] && [a] + [b, c] == [a, b, c]
  {
  }

  lemma JoinCalls(a: Call, b: Call, c: Call, d: Call, e: Call, f: Call)
    ensures [a, b] + ([c, d] + ([e, f] + [])) == [a, b, c, d, e, f]
  {
  }

  lemma NoMemberCalls()
    ensures MemberCalls([]) == []
  {
  }

  lemma TextMemberShape(key: seq<Byte>, text: seq<Byte>, rest: seq<Member>)
    ensures var ms := [Member(key, Str(text))] + rest;
            MembersDepth(ms) == MembersDepth(rest) && (MembersCountable(ms) <==> MembersCountable(rest))
  {
    var ms := [Member(key, Str(text))] + rest;
    assert ms[1..] == rest;
    assert Depth(ms[0].value) == 0 && Countable(ms[0].value);
  }

  lemma HeadShape(e: Entry)
    ensures MembersDepth(Head(e)) == 0 && MembersCountable(Head(e)) && |Head(e)| == 3
  {
    hide Ascii;
    var h := Head(e);
    TextMemberShape(MESSAGE, e.message, []);
    TextMemberShape(COMPONENT, e.component, [h[2]]);
    TextMemberShape(LEVEL, e.level, [h[1], h[2]]);
    JoinMembers(h[0], h[1], h[2]);
  }

  lemma ObjectOpened(w: Writer)
    requires Ready(w) && w.curr + 1 < |w.levels| && w.out == "" && w.levels[w.curr] == Level(0, false)
    ensures var o := Apply(w, ObjectOpen);
            o.curr == w.curr + 1 && o.levels[o.curr] == Level(0, true) && o.out == "{"
  {
    assert "" + "" + "{" == "{";
  }

  /** After the opening brace, the head calls leave six items at the new level. */
  lemma HeadWritten(w: Writer, level: int, component: seq<Byte>, message: seq<Byte>)
    requires Ready(w) && w.curr + 1 < |w.levels| && w.out == "" && w.levels[w.curr] == Level(0, false)
    requires 0 !in component && 0 !in message
    ensures var r := Replay(Apply(w, ObjectOpen), HeadCalls(level, component, message));
            var e := Entry(LevelName(level), component, message, None);
            && r.curr == w.curr + 1 && r.levels[r.curr] == Level(6, true)
            && r.out == "{" + PrintMembers(Head(e), true)
  {
    hide Ascii, LevelName, Replay, HeadCalls, Apply, Head, MemberCalls, MembersCountable, MembersDepth, PrintMembers;
    var e := Entry(LevelName(level), component, message, None);
    HeadCallsMatch(level, component, message);
    HeadShape(e);
    ObjectOpened(w);
    MembersWrote(Apply(w, ObjectOpen), Head(e));
  }

  lemma MessageWritten(w: Writer, level: int, component: seq<Byte>, message: seq<Byte>)
    requires Ready(w) && w.curr + 1 < |w.levels| && w.out == "" && w.levels[w.curr] == Level(0, false)
    requires 0 !in component && 0 !in message
    ensures Apply(Replay(Apply(w, ObjectOpen), HeadCalls(level, component, message)), ObjectClose).out
            == Body(Entry(LevelName(level), component, message, None))
  {
    hide Ascii, LevelName, Replay, HeadCalls, PrintMembers;
    HeadWritten(w, level, component, message);
  }

  lemma OpeningWritten(w: Writer, level: int, component: seq<Byte>, message: seq<Byte>)
    requires Ready(w) && w.curr + 1 < |w.levels| && w.out == "" && w.levels[w.curr] == Level(0, false)
    requires 0 !in component && 0 !in message
    ensures Apply(Apply(Replay(Apply(w, ObjectOpen), HeadCalls(level, component, message)), PutString(DATA)),
                  PutLiteral("")).out
            == Opening(Entry(LevelName(level), component, message, None))
  {
    hide Ascii, LevelName, Replay, HeadCalls, PrintMembers, Quote;
    HeadWritten(w, level, component, message);
    FieldNames();
    CStringWhole(DATA);
  }

  /** Three writers that know nothing of each other, the last one fresh, produce one record. */
  lemma SplitWritersCompose(start: Writer, value: Writer, end: Writer,
                            level: int, component: seq<Byte>, message: seq<Byte>, v: Json)
    requires |start.levels| == LOG_LEVELS && |value.levels| == STREAM_LEVELS && |end.levels| == LOG_LEVELS
    requires start.out == "" && value.out == "" && end.out == ""
    requires 0 !in component && 0 !in message && Depth(v) < STREAM_LEVELS && Countable(v)
    ensures var head := Replay(Apply(Reset(start), ObjectOpen), HeadCalls(level, component, message));
            var e := Entry(LevelName(level), component, message, Some(v));
            && Apply(Apply(head, PutString(DATA)), PutLiteral("")).out + Replay(Reset(value), Calls(v)).out
               + Apply(Reset(end), ObjectClose).out + "\n" == Record(e)
            && ParseEntry(Body(e)) == Some(e)
  {
    hide Ascii, LevelName, Replay, HeadCalls, Opening, Record, Body, ParseEntry;
    var e := Entry(LevelName(level), component, message, Some(v));
    OpeningWritten(Reset(start), level, component, message);
    OpeningIgnoresData(e);
    StreamRoundTrip(value, v);
    assert Apply(Reset(end), ObjectClose).out == "}";
    SplitRecord(e, v);
    EntryRoundTrip(e);
  }

  lemma OpeningIgnoresData(e: Entry)
    ensures Opening(e) == Opening(e.(data := None))
  {
  }

  /** A call of log_message after formatting. */
  datatype Message = Message(level: int, component: seq<Byte>, text: seq<Byte>) {
    function Logged(): Entry {
      Entry(LevelName(level), component, Trimmed(text), None)
    }

    /** C strings that fit the message buffer, with a record that fits the output buffer. */
    predicate Fits() {
      && 0 !in component && 0 !in text && |text| < MAX_LOG_MESSAGE_SIZE
      && |Record(Logged())| < MAX_LOG_MESSAGE_SIZE
    }
  }

  /** Six output bytes per input byte and 48 around them are always enough. */
  lemma ShortFits(m: Message)
    requires 0 !in m.component && 0 !in m.text && 48 + 6 * (|m.component| + |m.text|) < MAX_LOG_MESSAGE_SIZE
    ensures m.Fits()
  {
    hide Record, LevelName;
    RecordLength(m.level, m.component, Trimmed(m.text));
  }

  function LoggedAll(ms: seq<Message>): seq<Entry> {
    if ms == [] then [] else LoggedAll(ms[..|ms| - 1]) + [ms[|ms| - 1].Logged()]
  }

  /** What the viewer must read for a message: its level and component, and its text without a final newline. */
  predicate Tells(e: Entry, m: Message) {
    && e.level == LevelName(m.level) && e.component == m.component && e.data == None
    && m.text == e.message + if m.text != [] && m.text[|m.text| - 1] == 10 then [10] else []
  }

  lemma LoggedTells(m: Message)
    ensures Tells(m.Logged(), m)
  {
    hide LevelName;
    TrimmedIs(m.text);
  }

  lemma {:induction false} LoggedAt(ms: seq<Message>, i: nat)
    requires i < |ms|
    ensures |LoggedAll(ms)| == |ms| && LoggedAll(ms)[i] == ms[i].Logged()
  {
    hide Message.Logged;
    var n := |ms| - 1;
    LoggedLength(ms[..n]);
    if i < n {
      LoggedAt(ms[..n], i);
    }
  }

  lemma {:induction false} LoggedLength(ms: seq<Message>)
    ensures |LoggedAll(ms)| == |ms|
  {
    if ms != [] {
      LoggedLength(ms[..|ms| - 1]);
    }
  }

  lemma {:induction false} FoundAt(es: seq<Entry>, i: nat)
    requires i < |es|
    ensures |Found(es)| == |es| && Found(es)[i] == Some(es[i])
  {
    FoundLength(es[1..]);
    if i > 0 {
      FoundAt(es[1..], i - 1);
    }
  }

  lemma {:induction false} FoundLength(es: seq<Entry>)
    ensures |Found(es)| == |es|
  {
    if es != [] {
      FoundLength(es[1..]);
    }
  }

  /** The log of the messages is as many lines, and line i tells message i. */
  lemma LogTells(ms: seq<Message>)
    ensures var read := ReadAll(Lines(Log(LoggedAll(ms))));
            |read| == |ms| && forall i :: 0 <= i < |ms| ==> read[i].Some? && Tells(read[i].value, ms[i])
  {
    hide Tells, Message.Logged, LoggedAll, Found, Log;
    var es := LoggedAll(ms);
    LogRoundTrip(es);
    LoggedLength(ms);
    FoundLength(es);
    forall i | 0 <= i < |ms|
      ensures Found(es)[i].Some? && Tells(Found(es)[i].value, ms[i])
    {
      LoggedAt(ms, i);
      FoundAt(es, i);
      LoggedTells(ms[i]);
    }
  }

  class Logger {
    /** Everything each writer function has received. */
    const sinks: array<string>

    constructor (sinks: array<string>)
      ensures this.sinks == sinks
    {
      this.sinks := sinks;
    }

    /** Each sink has received text on top of what it had. */
    twostate predicate Sent(text: string)
      reads this, sinks
    {
      forall i :: 0 <= i < sinks.Length ==> sinks[i] == old(sinks[i]) + text
    }

    /** A writer whose characters go to a buffer only. */
    static method FreshWriter() returns (j: Jems)
      ensures fresh(j) && fresh(j.levels) && fresh(j.sinks) && j.Valid()
      ensures |j.View().levels| == LOG_LEVELS && j.View().curr == 0 && j.View().out == ""
      ensures j.View().levels[0] == Level(0, false)
    {
      var levels := new Level[LOG_LEVELS];
      var none := new string[0];
      j := new Jems(levels, none);
    }

    static method HeadFields(j: Jems, level: int, component: seq<Byte>, message: seq<Byte>)
      requires j.Valid()
      modifies j, j.levels, j.sinks
      ensures j.Valid()
      ensures j.View() == Replay(old(j.View()), HeadCalls(level, component, message))
    {
      hide Apply, LevelName, Ascii;
      ghost var w := j.View();
      j.KeyString(LEVEL, LevelName(level));
      j.KeyString(COMPONENT, component);
      j.KeyString(MESSAGE, message);
      ghost var a, b, c := [PutString(LEVEL), PutString(LevelName(level))],
                           [PutString(COMPONENT), PutString(component)], [PutString(MESSAGE), PutString(message)];
      ReplayAppend(w, a, b);
      ReplayAppend(w, a + b, c);
      assert a + b + c == HeadCalls(level, component, message);
    }

    /** The whole record: a flat object with the data field left open when include_data is set. */
    static method CreateJsonLog(j: Jems, level: int, component: seq<Byte>, message: seq<Byte>, includeData: bool)
      requires j.Valid()
      modifies j, j.levels, j.sinks
      ensures j.Valid()
      ensures var h := Replay(Apply(old(j.View()), ObjectOpen), HeadCalls(level, component, message));
              j.View() == Apply(if includeData then Replay(h, [PutString(DATA), PutLiteral("")]) else h, ObjectClose)
    {
      hide Apply, HeadCalls;
      j.ObjectOpen();
      HeadFields(j, level, component, message);
      if includeData {
        j.KeyLiteral(DATA, "");
      }
      j.ObjectClose();
    }

    /** message is the formatted text in its buffer. The record and its NUL fit the output buffer. */
    method LogMessage(level: int, component: seq<Byte>, message: seq<Byte>)
      requires 0 !in component && 0 !in message && |message| < MAX_LOG_MESSAGE_SIZE
      requires |Record(Entry(LevelName(level), component, Trimmed(message), None))| < MAX_LOG_MESSAGE_SIZE
      modifies sinks
      ensures Sent(Record(Entry(LevelName(level), component, Trimmed(message), None)))
    {
      hide Apply, Replay, HeadCalls, LevelName, Ascii;
      var text := message;
      if |text| > 0 && text[|text| - 1] == 10 {
        text := text[..|text| - 1];
      }
      assert 0 !in text;
      var j := FreshWriter();
      ghost var w := j.View();
      CreateJsonLog(j, level, component, text, false);
      MessageWritten(w, level, component, text);
      SendAll(sinks, j.out + "\n");
    }

    /** A sequence of messages is a log that the viewer reads back entry by entry. */
    method LogAll(ms: seq<Message>)
      requires forall m :: m in ms ==> m.Fits()
      modifies sinks
      ensures Sent(Log(LoggedAll(ms)))
      ensures ReadAll(Lines(Log(LoggedAll(ms)))) == Found(LoggedAll(ms))
      ensures var read := ReadAll(Lines(Log(LoggedAll(ms))));
              |read| == |ms| && forall i :: 0 <= i < |ms| ==> read[i].Some? && Tells(read[i].value, ms[i])
    {
      hide Record, Message.Logged, Message.Fits, Tells;
      LogRoundTrip(LoggedAll(ms));
      LogTells(ms);
      for i := 0 to |ms|
        invariant forall k :: 0 <= k < sinks.Length ==> sinks[k] == old(sinks[k]) + Log(LoggedAll(ms[..i]))
      {
        var m := ms[i];
        assert m in ms;
        FittingRecord(m);
        LogMessage(m.level, m.component, m.text);
        assert ms[..i + 1][..i] == ms[..i];
        LogOneMore(LoggedAll(ms[..i]), m.Logged());
        forall k | 0 <= k < sinks.Length
          ensures sinks[k] == old(sinks[k]) + Log(LoggedAll(ms[..i + 1]))
        {
          Append(old(sinks[k]), Log(LoggedAll(ms[..i])), Record(m.Logged()));
        }
      }
      assert ms[..|ms|] == ms;
    }

    static lemma FittingRecord(m: Message)
      requires m.Fits()
      ensures m.Logged() == Entry(LevelName(m.level), m.component, Trimmed(m.text), None)
      ensures 0 !in m.component && 0 !in m.text && |m.text| < MAX_LOG_MESSAGE_SIZE
      ensures |Record(m.Logged())| < MAX_LOG_MESSAGE_SIZE
    {
      hide Record, LevelName;
    }

    method LogStreamStart(level: int, component: seq<Byte>, message: seq<Byte>)
      requires 0 !in component && 0 !in message
      requires |Opening(Entry(LevelName(level), component, message, None))| < MAX_LOG_MESSAGE_SIZE
      modifies sinks
      ensures Sent(Opening(Entry(LevelName(level), component, message, None)))
    {
      hide Apply, Replay, HeadCalls, LevelName, Ascii, Opening;
      var j := FreshWriter();
      ghost var w := j.View();
      j.ObjectOpen();
      HeadFields(j, level, component, message);
      ghost var h := j.View();
      j.KeyLiteral(DATA, "");
      ReplayTwo(h, PutString(DATA), PutLiteral(""));
      OpeningWritten(w, level, component, message);
      SendAll(sinks, j.out);
    }

    /** Every sink gets the C string, whatever length is passed. */
    method LogStreamData(data: string, length: nat)
      modifies sinks
      ensures Sent(data)
    {
      SendAll(sinks, data);
    }

    method LogStreamEnd()
      modifies sinks
      ensures Sent("}\n")
    {
      var j := FreshWriter();
      ghost var w := j.View();
      j.ObjectClose();
      assert j.out == "" + "}";
      SendAll(sinks, j.out + "\n");
    }

    /** A value streamed by a writer of its own, which relays each character as it comes. */
    method StreamValue(v: Json)
      requires Depth(v) < STREAM_LEVELS && Countable(v)
      modifies sinks
      ensures Sent(Print(v))
    {
      hide Apply, Print, Relayed;
      var levels := new Level[STREAM_LEVELS];
      ghost var w := Writer(levels[..], 0, "");
      var j := new Jems(levels, sinks);
      j.Play(Calls(v));
      StreamRoundTrip(w, v);
      PrintPrintable(v);
      RelayedWhole(Print(v));
      assert j.Delivered();
    }

    /** A record in three parts: opening, streamed value, end. The end comes from yet another writer. */
    method StreamRecord(level: int, component: seq<Byte>, message: seq<Byte>, v: Json)
      requires 0 !in component && 0 !in message && Depth(v) < STREAM_LEVELS && Countable(v)
      requires |Opening(Entry(LevelName(level), component, message, None))| < MAX_LOG_MESSAGE_SIZE
      modifies sinks
      ensures Sent(Record(Entry(LevelName(level), component, message, Some(v))))
    {
      hide Opening, Record, LevelName, Print, Ascii;
      ghost var e := Entry(LevelName(level), component, message, Some(v));
      LogStreamStart(level, component, message);
      OpeningIgnoresData(e);
      StreamValue(v);
      LogStreamEnd();
      SplitRecord(e, v);
      ThreeParts(Opening(e), Print(v));
      forall i | 0 <= i < sinks.Length
        ensures sinks[i] == old(sinks[i]) + Record(e)
      {
        AppendThree(old(sinks[i]), Opening(e), Print(v), "}\n");
      }
    }

    static lemma ThreeParts(a: string, b: string)
      ensures a + b + "}\n" == a + b + "}" + "\n"
    {
      assert "}\n" == "}" + "\n";
    }

    static lemma AppendThree(s: string, a: string, b: string, c: string)
      ensures s + a + b + c == s + (a + b + c)
    {
    }
  }
}
