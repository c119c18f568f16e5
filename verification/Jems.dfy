/** The streaming JSON writer: a level array, the index of the open level, and a character sink. */
module JemsWriters {
  import opened Bits
  import opened Json
  import opened JsonRoundTrip
  import opened JemsModel
  import opened Sinks

  class Jems {
    const levels: array<Level>
    /** The writer function hands each character on to all of these; none for one that only fills a buffer. */
    const sinks: array<string>
    /** What the sinks had received before this writer came. */
    ghost const base: seq<string>
    var currLevel: nat
    /** Every character handed to the writer function so far: the contents of a buffer. */
    var out: string

    /** Each sink has received everything written so far, and nothing else. */
    ghost predicate Delivered()
      reads this`out, sinks
    {
      |base| == sinks.Length && forall i :: 0 <= i < sinks.Length ==> sinks[i] == base[i] + Relayed(out)
    }

    ghost predicate Valid()
      reads this, sinks
    {
      currLevel < levels.Length && Delivered()
    }

    ghost function View(): Writer
      reads this, levels
    {
      Writer(levels[..], currLevel, out)
    }

    constructor (levels: array<Level>, sinks: array<string>)
      requires levels.Length > 0
      modifies levels
      ensures Valid() && this.levels == levels && this.sinks == sinks && base == old(sinks[..])
      ensures View() == JemsModel.Reset(Writer(old(levels[..]), 0, ""))
    {
      this.levels, this.sinks, base := levels, sinks, sinks[..];
      currLevel := 0;
      out := "";
      new;
      levels[0] := Level(0, false);
      assert levels[..] == old(levels[..])[0 := Level(0, false)];
    }

    method Reset()
      requires Valid()
      modifies this`currLevel, levels
      ensures Valid() && View() == JemsModel.Reset(old(View()))
    {
      currLevel := 0;
      levels[0] := Level(0, false);
      assert levels[..] == old(levels[..])[0 := Level(0, false)];
    }

    method EmitChar(ch: char)
      requires Valid()
      modifies this`out, sinks
      ensures Valid() && out == old(out) + [ch]
    {
      hide Relayed, OneChar;
      SendAll(sinks, OneChar(ch));
      out := out + [ch];
      RelayedOneMore(old(out), ch);
      forall i | 0 <= i < sinks.Length
        ensures sinks[i] == base[i] + Relayed(out)
      {
        Append(base[i], Relayed(old(out)), OneChar(ch));
      }
    }

    method EmitString(s: string)
      requires Valid()
      modifies this`out, sinks
      ensures Valid() && out == old(out) + s
    {
      var i := 0;
      while i < |s|
        invariant Valid() && i <= |s| && out == old(out) + s[..i]
      {
        EmitChar(s[i]);
        i := i + 1;
        assert s[..i] == s[..i - 1] + [s[i - 1]];
      }
      assert s[..i] == s;
    }

    method EmitQuotedByte(b: Byte)
      requires Valid()
      modifies this`out, sinks
      ensures Valid() && out == old(out) + EscapeByte(b)
    {
      if b < 0x20 || b >= 127 {
        EmitString(['\\', 'u', '0', '0', HexDigit(b / 16), HexDigit(b % 16)]);
      } else {
        if b == 0x5C || b == 0x22 {
          EmitChar('\\');
        }
        EmitChar(b as char);
      }
    }

    /** s is the memory a char pointer points to: the loop stops at the first NUL. */
    method EmitQuotedString(s: seq<Byte>)
      requires Valid()
      modifies this`out, sinks
      ensures Valid() && out == old(out) + Escape(CString(s))
    {
      hide EscapeByte, Escape, CString;
      var i := 0;
      EscapeNothing();
      while i < |s| && s[i] != 0
        invariant Valid() && i <= |s| && 0 !in s[..i] && out == old(out) + Escape(s[..i])
      {
        EmitQuotedByte(s[i]);
        EscapeOneMore(s[..i], s[i]);
        assert s[..i + 1] == s[..i] + [s[i]];
        i := i + 1;
      }
      CStringPrefix(s, i);
    }

    static lemma EscapeNothing()
      ensures Escape([]) == ""
    {
    }

    method EmitQuotedBytes(bytes: seq<Byte>)
      requires Valid()
      modifies this`out, sinks
      ensures Valid() && out == old(out) + Escape(bytes)
    {
      hide EscapeByte, Escape;
      EscapeNothing();
      for i := 0 to |bytes|
        invariant Valid() && out == old(out) + Escape(bytes[..i])
      {
        EmitQuotedByte(bytes[i]);
        EscapeOneMore(bytes[..i], bytes[i]);
        assert bytes[..i + 1] == bytes[..i] + [bytes[i]];
      }
      assert bytes[..|bytes|] == bytes;
    }

    method Commify()
      requires Valid()
      modifies this`out, levels, sinks
      ensures Valid() && View() == JemsModel.Commify(old(View()))
    {
      var level := levels[currLevel];
      if level.isObject {
        if level.itemCount > 0 {
          EmitChar(if level.itemCount % 2 == 1 then ':' else ',');
        }
      } else {
        if level.itemCount > 0 {
          EmitChar(',');
        }
      }
      levels[currLevel] := level.(itemCount := (level.itemCount + 1) % WORD);
      assert levels[..] == old(levels[..])[currLevel := levels[currLevel]];
      assert old(out) + "" == old(out);
    }

    method PushLevel(isObject: bool)
      requires Valid()
      modifies this`currLevel, levels
      ensures Valid() && View() == JemsModel.PushLevel(old(View()), isObject)
    {
      if currLevel < levels.Length - 1 {
        currLevel := currLevel + 1;
        levels[currLevel] := Level(0, isObject);
        assert levels[..] == old(levels[..])[currLevel := Level(0, isObject)];
      }
    }

    method PopLevel()
      requires Valid()
      modifies this`currLevel
      ensures Valid() && View() == JemsModel.PopLevel(old(View()))
    {
      if currLevel > 0 {
        currLevel := currLevel - 1;
      }
    }

    method ObjectOpen()
      requires Valid()
      modifies this, levels, sinks
      ensures Valid() && View() == Apply(old(View()), Call.ObjectOpen)
    {
      Commify();
      EmitChar('{');
      PushLevel(true);
    }

    method ObjectClose()
      requires Valid()
      modifies this, levels, sinks
      ensures Valid() && View() == Apply(old(View()), Call.ObjectClose)
    {
      EmitChar('}');
      PopLevel();
    }

    method ArrayOpen()
      requires Valid()
      modifies this, levels, sinks
      ensures Valid() && View() == Apply(old(View()), Call.ArrayOpen)
    {
      Commify();
      EmitChar('[');
      PushLevel(false);
    }

    method ArrayClose()
      requires Valid()
      modifies this, levels, sinks
      ensures Valid() && View() == Apply(old(View()), Call.ArrayClose)
    {
      EmitChar(']');
      PopLevel();
    }

    method Integer(n: int)
      requires Valid()
      modifies this, levels, sinks
      ensures Valid() && View() == Apply(old(View()), PutInteger(n))
    {
      Commify();
      EmitString(Decimal(n));
    }

    method String(s: seq<Byte>)
      requires Valid()
      modifies this, levels, sinks
      ensures Valid() && View() == Apply(old(View()), PutString(s))
    {
      Commify();
      ghost var before := out;
      EmitChar('"');
      EmitQuotedString(s);
      EmitChar('"');
      assert out == before + Quote(CString(s));
    }

    method Bytes(bytes: seq<Byte>)
      requires Valid()
      modifies this, levels, sinks
      ensures Valid() && View() == Apply(old(View()), PutBytes(bytes))
    {
      Commify();
      ghost var before := out;
      EmitChar('"');
      EmitQuotedBytes(bytes);
      EmitChar('"');
      assert out == before + Quote(bytes);
    }

    method Boolean(b: bool)
      requires Valid()
      modifies this, levels, sinks
      ensures Valid() && View() == Apply(old(View()), PutBool(b))
    {
      Commify();
      EmitString(if b then "true" else "false");
    }

    method Null()
      requires Valid()
      modifies this, levels, sinks
      ensures Valid() && View() == Apply(old(View()), PutNull)
    {
      Commify();
      EmitString("null");
    }

    method Literal(text: string)
      requires Valid()
      modifies this, levels, sinks
      ensures Valid() && View() == Apply(old(View()), PutLiteral(text))
    {
      Commify();
      EmitString(text);
    }

    // ----- Key and value pairs: each is the key's string call followed by the value's call -----

    method KeyString(key: seq<Byte>, s: seq<Byte>)
      requires Valid()
      modifies this, levels, sinks
      ensures Valid() && View() == Replay(old(View()), [PutString(key), PutString(s)])
    {
      String(key);
      String(s);
      ReplayTwo(old(View()), PutString(key), PutString(s));
    }

    method KeyLiteral(key: seq<Byte>, text: string)
      requires Valid()
      modifies this, levels, sinks
      ensures Valid() && View() == Replay(old(View()), [PutString(key), PutLiteral(text)])
    {
      String(key);
      Literal(text);
      ReplayTwo(old(View()), PutString(key), PutLiteral(text));
    }

    method KeyInteger(key: seq<Byte>, n: int)
      requires Valid()
      modifies this, levels, sinks
      ensures Valid() && View() == Replay(old(View()), [PutString(key), PutInteger(n)])
    {
      String(key);
      Integer(n);
      ReplayTwo(old(View()), PutString(key), PutInteger(n));
    }

    method KeyArrayOpen(key: seq<Byte>)
      requires Valid()
      modifies this, levels, sinks
      ensures Valid() && View() == Replay(old(View()), [PutString(key), Call.ArrayOpen])
    {
      String(key);
      ArrayOpen();
      ReplayTwo(old(View()), PutString(key), Call.ArrayOpen);
    }

    method KeyObjectOpen(key: seq<Byte>)
      requires Valid()
      modifies this, levels, sinks
      ensures Valid() && View() == Replay(old(View()), [PutString(key), Call.ObjectOpen])
    {
      String(key);
      ObjectOpen();
      ReplayTwo(old(View()), PutString(key), Call.ObjectOpen);
    }

    method Perform(c: Call)
      requires Valid()
      modifies this, levels, sinks
      ensures Valid() && View() == Apply(old(View()), c)
    {
      hide Apply;
      match c
      case ObjectOpen => ObjectOpen();
      case ObjectClose => ObjectClose();
      case ArrayOpen => ArrayOpen();
      case ArrayClose => ArrayClose();
      case PutInteger(n) => Integer(n);
      case PutString(s) => String(s);
      case PutBytes(s) => Bytes(s);
      case PutBool(b) => Boolean(b);
      case PutNull => Null();
      case PutLiteral(t) => Literal(t);
    }

    /** A client's whole call sequence. */
    method Play(cs: seq<Call>)
      requires Valid()
      modifies this, levels, sinks
      ensures Valid() && View() == Replay(old(View()), cs)
    {
      hide Apply;
      ghost var w := View();
      assert cs[0..] == cs;
      for i := 0 to |cs|
        invariant Valid() && Replay(View(), cs[i..]) == Replay(w, cs)
      {
        assert cs[i..] == [cs[i]] + cs[i + 1..];
        ReplayOne(View(), cs[i], cs[i + 1..]);
        Perform(cs[i]);
      }
      assert cs[|cs|..] == [];
    }
  }
}
