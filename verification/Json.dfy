/** JSON values over byte strings, their compact print, and a parser (RFC 8259). */
module Json {

  import opened Bits

  datatype Option<+T> = None | Some(value: T)

  datatype Json =
    | Null
    | Bool(b: bool)
    | Int(n: int)
    | Str(bytes: seq<Byte>)
    | Arr(items: seq<Json>)
    | Obj(members: seq<Member>)

  datatype Member = Member(key: seq<Byte>, value: Json)

  // ----- Numbers -----

  function Digit(d: nat): char
    requires d < 10
  {
    (d + 48) as char
  }

  function Natural(n: nat): (s: string)
    ensures |s| > 0
  {
    if n < 10 then [Digit(n)] else Natural(n / 10) + [Digit(n % 10)]
  }

  function Decimal(n: int): string {
    if n < 0 then "-" + Natural(-n) else Natural(n)
  }

  predicate IsDigit(c: char) {
    '0' <= c <= '9'
  }

  function DigitValue(c: char): nat
    requires IsDigit(c)
  {
    c as int - 48
  }

  /** The number written by a run of digits. */
  function Value(s: string): nat
    requires forall c :: c in s ==> IsDigit(c)
  {
    if s == "" then 0
    else
      var c := s[|s| - 1];
      assert c in s;
      Value(s[..|s| - 1]) * 10 + DigitValue(c)
  }

  function DigitRun(s: string): (k: nat)
    ensures k <= |s| && forall c :: c in s[..k] ==> IsDigit(c)
    ensures k < |s| ==> !IsDigit(s[k])
  {
    if s == "" || !IsDigit(s[0]) then 0
    else
      var k := 1 + DigitRun(s[1..]);
      assert s[..k] == [s[0]] + s[1..][..k - 1];
      k
  }

  // ----- Strings -----

  function HexDigit(d: nat): char
    requires d < 16
  {
    if d < 10 then (d + 48) as char else (d + 87) as char
  }

  /** One byte inside a JSON string: section 7 of RFC 8259. */
  function EscapeByte(b: Byte): string {
    if b < 0x20 || b >= 127 then ['\\', 'u', '0', '0', HexDigit(b / 16), HexDigit(b % 16)]
    else if b == 0x5C || b == 0x22 then ['\\', b as char]
    else [b as char]
  }

  function Escape(s: seq<Byte>): string {
    if s == [] then "" else EscapeByte(s[0]) + Escape(s[1..])
  }

  function Quote(s: seq<Byte>): string {
    "\"" + Escape(s) + "\""
  }

  // ----- Compact print -----

  function Print(v: Json): string
    decreases v, 0
  {
    match v
    case Null => "null"
    case Bool(b) => if b then "true" else "false"
    case Int(n) => Decimal(n)
    case Str(s) => Quote(s)
    case Arr(items) => "[" + PrintItems(items, true) + "]"
    case Obj(members) => "{" + PrintMembers(members, true) + "}"
  }

  function PrintItems(items: seq<Json>, first: bool): string
    decreases items, 1
  {
    if items == [] then ""
    else (if first then "" else ",") + Print(items[0]) + PrintItems(items[1..], false)
  }

  function PrintMembers(members: seq<Member>, first: bool): string
    decreases members, 1
  {
    if members == [] then ""
    else
      (if first then "" else ",") + Quote(members[0].key) + ":" + Print(members[0].value)
      + PrintMembers(members[1..], false)
  }

  // ----- Parser -----

  type Parsed<T> = Option<(T, string)>

  function HexValue(c: char): (r: Option<nat>)
    ensures r.Some? ==> r.value < 16
  {
    if '0' <= c <= '9' then Some(c as int - 48)
    else if 'a' <= c <= 'f' then Some(c as int - 87)
    else if 'A' <= c <= 'F' then Some(c as int - 55)
    else None
  }

  function ParseHex4(s: string): (r: Option<nat>) {
    if |s| < 4 then None
    else
      match (HexValue(s[0]), HexValue(s[1]), HexValue(s[2]), HexValue(s[3]))
      case (Some(a), Some(b), Some(c), Some(d)) => Some(((a * 16 + b) * 16 + c) * 16 + d)
      case _ => None
  }

  /** The byte that the two-character escape with this letter stands for. */
  function ShortEscape(c: char): Option<Byte> {
    match c
    case '"' => Some(0x22)
    case '\\' => Some(0x5C)
    case '/' => Some(0x2F)
    case 'b' => Some(8)
    case 'f' => Some(12)
    case 'n' => Some(10)
    case 'r' => Some(13)
    case 't' => Some(9)
    case _ => None
  }

  /** One character of a string body: a byte, and what follows. Code units above 255 and raw characters
      outside printable ASCII are not byte strings of this model. */
  function ParseChar(s: string): (r: Parsed<Byte>)
    ensures r.Some? ==> |r.value.1| < |s|
  {
    if s == "" then None
    else if s[0] == '\\' then
      if |s| < 2 then None
      else if s[1] == 'u' then
        match ParseHex4(s[2..])
        case Some(u) => if u < 256 then Some((u, s[6..])) else None
        case None => None
      else
        match ShortEscape(s[1])
        case Some(b) => Some((b, s[2..]))
        case None => None
    else if ' ' <= s[0] <= '~' && s[0] != '"' then Some((s[0] as int, s[1..]))
    else None
  }

  /** The rest of a string up to and including its closing quote. */
  function ParseChars(s: string): (r: Parsed<seq<Byte>>)
    ensures r.Some? ==> |r.value.1| < |s|
    decreases |s|
  {
    if s == "" then None
    else if s[0] == '"' then Some(([], s[1..]))
    else
      match ParseChar(s)
      case None => None
      case Some((b, t)) =>
        match ParseChars(t)
        case None => None
        case Some((bs, rest)) => Some(([b] + bs, rest))
  }

  function ParseString(s: string): (r: Parsed<seq<Byte>>)
    ensures r.Some? ==> |r.value.1| < |s|
  {
    if s != "" && s[0] == '"' then ParseChars(s[1..]) else None
  }

  function ParseNatural(s: string): (r: Parsed<nat>)
    ensures r.Some? ==> |r.value.1| < |s|
  {
    var k := DigitRun(s);
    if k == 0 then None
    else if s[0] == '0' then Some((0, s[1..]))
    else Some((Value(s[..k]), s[k..]))
  }

  function ParseInt(s: string): (r: Parsed<int>)
    ensures r.Some? ==> |r.value.1| < |s|
  {
    if s != "" && s[0] == '-' then
      match ParseNatural(s[1..])
      case Some((n, t)) => var i: int := n; Some((-i, t))
      case None => None
    else
      match ParseNatural(s)
      case Some((n, t)) => Some((n, t))
      case None => None
  }

  predicate Begins(s: string, c: char) {
    s != "" && s[0] == c
  }

  function ParseWord(s: string, word: string, v: Json): (r: Parsed<Json>)
    requires word != ""
    ensures r.Some? ==> |r.value.1| < |s|
  {
    if word <= s then Some((v, s[|word|..])) else None
  }

  function ParseValue(s: string): (r: Parsed<Json>)
    ensures r.Some? ==> |r.value.1| < |s|
    decreases |s|, 1
  {
    if s == "" then None
    else if s[0] == 'n' then ParseWord(s, "null", Null)
    else if s[0] == 't' then ParseWord(s, "true", Bool(true))
    else if s[0] == 'f' then ParseWord(s, "false", Bool(false))
    else if s[0] == '"' then
      match ParseString(s)
      case Some((b, t)) => Some((Str(b), t))
      case None => None
    else if s[0] == '[' then
      if Begins(s[1..], ']') then Some((Arr([]), s[2..]))
      else
        match ParseItems(s[1..])
        case Some((items, t)) => Some((Arr(items), t))
        case None => None
    else if s[0] == '{' then
      if Begins(s[1..], '}') then Some((Obj([]), s[2..]))
      else
        match ParseMembers(s[1..])
        case Some((members, t)) => Some((Obj(members), t))
        case None => None
    else
      match ParseInt(s)
      case Some((n, t)) => Some((Int(n), t))
      case None => None
  }

  /** One or more items up to and including the closing bracket. */
  function ParseItems(s: string): (r: Parsed<seq<Json>>)
    ensures r.Some? ==> |r.value.1| < |s|
    decreases |s|, 2
  {
    match ParseValue(s)
    case None => None
    case Some((v, t)) =>
      if Begins(t, ']') then Some(([v], t[1..]))
      else if Begins(t, ',') then
        match ParseItems(t[1..])
        case Some((vs, rest)) => Some(([v] + vs, rest))
        case None => None
      else None
  }

  /** One or more members up to and including the closing brace. */
  function ParseMembers(s: string): (r: Parsed<seq<Member>>)
    ensures r.Some? ==> |r.value.1| < |s|
    decreases |s|, 2
  {
    match ParseString(s)
    case None => None
    case Some((k, t)) =>
      if !Begins(t, ':') then None
      else
        match ParseValue(t[1..])
        case None => None
        case Some((v, u)) =>
          if Begins(u, '}') then Some(([Member(k, v)], u[1..]))
          else if Begins(u, ',') then
            match ParseMembers(u[1..])
            case Some((ms, rest)) => Some(([Member(k, v)] + ms, rest))
            case None => None
          else None
  }

  /** A whole text. */
  function Parse(s: string): Option<Json> {
    match ParseValue(s)
    case Some((v, t)) => if t == "" then Some(v) else None
    case None => None
  }
}
