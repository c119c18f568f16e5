/** The two arithmetic pieces of the kernel library: rounding to a power of two, and number formatting. */
module Libk {
  import opened Bits

  // ----- round_to_nearest_pow2 -----

  /** Of the bits m down to 0, the top t are set. */
  ghost predicate TopOnes(a: nat, m: nat, t: nat) {
    a < Pow2(m + 1) && forall i :: 0 <= i <= m && m < i + t ==> Bit(a, i) == 1
  }

  /** Or-ing with the value shifted by t doubles the run of ones at the top. */
  lemma SmearStep(a: nat, m: nat, t: nat)
    requires TopOnes(a, m, t)
    ensures TopOnes(Or(a, Shr(a, t)), m, 2 * t)
  {
    var b := Shr(a, t);
    OrWidth(a, b, m + 1);
    forall i | 0 <= i <= m && m < i + 2 * t
      ensures Bit(Or(a, b), i) == 1
    {
      OrBit(a, b, i);
      ShrBit(a, t, i);
      if m < i + t {
        assert Bit(a, i) == 1;
      } else {
        assert Bit(a, i + t) == 1;
      }
    }
  }

  ghost predicate LeastPowerFrom(n: nat, r: nat) {
    (exists k :: r == Pow2(k)) && n <= r && forall j :: n <= Pow2(j) ==> r <= Pow2(j)
  }

  lemma NextPower(n: nat, m: nat)
    requires Pow2(m) < n <= Pow2(m + 1)
    ensures LeastPowerFrom(n, Pow2(m + 1))
  {
    forall j: nat | n <= Pow2(j)
      ensures Pow2(m + 1) <= Pow2(j)
    {
      if j <= m {
        Pow2Increases(j, m);
        assert false;
      }
      Pow2Increases(m + 1, j);
    }
  }

  /** The smear starts from the highest set bit, and six doublings cover a 64-bit word. */
  lemma SmearEnds(a: nat, m: nat, n: nat)
    requires TopOnes(a, m, 64) && Pow2(m) <= n - 1 < Pow2(m + 1) && n < WORD
    ensures a == Pow2(m + 1) - 1
    ensures if n <= TOP_POWER then a < TOP_POWER else a == WORD - 1
  {
    WordSize();
    if m >= 64 {
      Pow2Increases(64, m);
      assert false;
    }
    if m < 63 {
      Pow2Increases(m + 1, 63);
    }
    AllOnes(a, m + 1);
  }

  /** n is a 64-bit word. Above 2^63 there is no such power, and the sum wraps to 0. */
  method RoundToNearestPow2(n: nat) returns (r: nat)
    requires n < WORD
    ensures n <= TOP_POWER ==> LeastPowerFrom(n, r)
    ensures n > TOP_POWER ==> r == 0
  {
    if n == 0 {
      assert Pow2(0) == 1;
      return 1;
    }
    var a: nat := n - 1;
    ghost var m := if a == 0 then 0 else HighBit(a);
    if a > 0 {
      HighBitBounds(a);
    }
    assert a > 0 ==> TopOnes(a, m, 1);
    Smear(a, m, 1);
    a := Or(a, Shr(a, 1));
    Smear(a, m, 2);
    a := Or(a, Shr(a, 2));
    Smear(a, m, 4);
    a := Or(a, Shr(a, 4));
    Smear(a, m, 8);
    a := Or(a, Shr(a, 8));
    Smear(a, m, 16);
    a := Or(a, Shr(a, 16));
    Smear(a, m, 32);
    a := Or(a, Shr(a, 32));
    r := (a + 1) % WORD;
    Rounded(a, m, n, r);
  }

  lemma Smear(a: nat, m: nat, t: nat)
    ensures a == 0 ==> Or(a, Shr(a, t)) == 0
    ensures TopOnes(a, m, t) ==> TopOnes(Or(a, Shr(a, t)), m, 2 * t)
  {
    if TopOnes(a, m, t) {
      SmearStep(a, m, t);
    }
  }

  lemma LeastPowerOne()
    ensures LeastPowerFrom(1, 1)
  {
    assert Pow2(0) == 1;
  }

  lemma Rounded(a: nat, m: nat, n: nat, r: nat)
    requires 0 < n < WORD && r == (a + 1) % WORD
    requires n == 1 ==> a == 0
    requires n > 1 ==> TopOnes(a, m, 64) && Pow2(m) <= n - 1 < Pow2(m + 1)
    ensures n <= TOP_POWER ==> LeastPowerFrom(n, r)
    ensures n > TOP_POWER ==> r == 0
  {
    hide Pow2, LeastPowerFrom, TopOnes;
    if n == 1 {
      LeastPowerOne();
    } else {
      SmearEnds(a, m, n);
      NextPower(n, m);
    }
  }

  // ----- itoa and reverse -----

  function DigitChar(d: int): char
    requires -36 < d < 36
  {
    if d > 9 then (d - 10 + 'a' as int) as char else (d + '0' as int) as char
  }

  /** What a character stands for as a digit: those below '0' are negative. */
  function CharDigit(c: char): int {
    if 'a' <= c <= 'z' then c as int - 'a' as int + 10 else c as int - '0' as int
  }

  /** The number that a text denotes in a base, most significant digit first. */
  function ReadDigits(s: string, base: nat): int {
    if s == "" then 0 else ReadDigits(s[..|s| - 1], base) * base + CharDigit(s[|s| - 1])
  }

  /** A leading minus is a sign in base 10 and a digit in the other bases. */
  function ReadNumber(s: string, base: nat): int {
    if base == 10 && s != "" && s[0] == '-' then -ReadDigits(s[1..], base) else ReadDigits(s, base)
  }

  function Abs(n: int): nat {
    if n < 0 then -n else n
  }

  /** Integer division rounds towards zero. */
  function Quotient(n: int, base: nat): int
    requires base > 0
  {
    if n < 0 then -(-n / base) else n / base
  }

  /** The remainder has the sign of the number. */
  function Remainder(n: int, base: nat): int
    requires base > 0
  {
    if n < 0 then -(-n % base) else n % base
  }

  lemma SmallerNatural(n: nat, base: nat)
    requires n > 0 && base >= 2
    ensures n / base < n && n == n / base * base + n % base
  {
    var q := n / base;
    assert n == q * base + n % base;
    MulMonotone(q, 2, base);
  }

  lemma SmallerQuotient(n: int, base: nat)
    requires n != 0 && base >= 2
    ensures Abs(Quotient(n, base)) < Abs(n) && n == Quotient(n, base) * base + Remainder(n, base)
    ensures Abs(Remainder(n, base)) < base
    ensures if n > 0 then Quotient(n, base) >= 0 && Remainder(n, base) >= 0
            else Quotient(n, base) <= 0 && Remainder(n, base) <= 0
  {
    SmallerNatural(Abs(n), base);
    var q := Abs(n) / base;
    assert (-q) * base == -(q * base);
  }

  /** The digits of n, least significant first. */
  function LowFirst(n: int, base: nat): string
    requires 2 <= base <= 36
    decreases Abs(n)
  {
    if n == 0 then ""
    else
      SmallerQuotient(n, base);
      [DigitChar(Remainder(n, base))] + LowFirst(Quotient(n, base), base)
  }

  function Reversed<T>(s: seq<T>): (r: seq<T>)
    ensures |r| == |s|
  {
    if s == [] then [] else Reversed(s[1..]) + [s[0]]
  }

  function Formatted(num: int, base: nat): string
    requires 2 <= base <= 36
  {
    if num == 0 then "0"
    else if num < 0 && base == 10 then Reversed(LowFirst(-num, base) + "-")
    else Reversed(LowFirst(num, base))
  }

  /** A C int; in base 10 the least one has no negation. */
  predicate Formattable(num: int, base: nat) {
    2 <= base <= 36 && -0x8000_0000 <= num < 0x8000_0000 && (base == 10 ==> num > -0x8000_0000)
  }

  lemma DigitRoundTrip(d: int)
    requires -36 < d < 36
    ensures CharDigit(DigitChar(d)) == d && DigitChar(d) as int != 0
    ensures DigitChar(d) == '0' <==> d == 0
    ensures DigitChar(d) < '0' <==> d < 0
  {
  }

  lemma LowFirstStep(n: int, base: nat)
    requires n != 0 && 2 <= base <= 36
    ensures Abs(Remainder(n, base)) < base
    ensures LowFirst(n, base) == [DigitChar(Remainder(n, base))] + LowFirst(Quotient(n, base), base)
  {
    SmallerQuotient(n, base);
  }

  lemma LowFirstEnds(base: nat)
    requires 2 <= base <= 36
    ensures LowFirst(0, base) == ""
  {
  }

  lemma ReadAppend(s: string, c: char, base: nat)
    ensures ReadDigits(s + [c], base) == ReadDigits(s, base) * base + CharDigit(c)
  {
    assert (s + [c])[..|s|] == s;
  }

  /** Digits from ten on are lower-case letters. */
  lemma DigitText(d: nat)
    requires d < 36
    ensures DigitChar(d) == "0123456789abcdefghijklmnopqrstuvwxyz"[d]
  {
  }

  lemma DigitsSample()
    ensures LowFirst(42, 10) == "24" && LowFirst(255, 16) == "ff" && LowFirst(6, 2) == "011"
  {
  }

  lemma ReversedSample()
    ensures Reversed("24-") == "-42" && Reversed("ff") == "ff" && Reversed("011") == "110"
  {
  }

  lemma FormattedSample()
    ensures Formattable(-42, 10) && Formattable(255, 16) && Formattable(-0x8000_0000, 2)
    ensures Formatted(-42, 10) == "-42" && Formatted(255, 16) == "ff" && Formatted(6, 2) == "110"
  {
    hide LowFirst, Reversed;
    DigitsSample();
    ReversedSample();
    assert "24" + "-" == "24-";
  }

  /** One more digit in front of the low-first text is one more at the end of the reversed one. */
  lemma ReadOneMore(n: int, base: nat, q: int, d: int, rest: string)
    requires 2 <= base <= 36 && n == q * base + d && Abs(d) < base
    requires ReadDigits(Reversed(rest), base) == q
    ensures ReadDigits(Reversed([DigitChar(d)] + rest), base) == n
  {
    hide DigitChar, CharDigit, ReadDigits;
    DigitRoundTrip(d);
    ReadAppend(Reversed(rest), DigitChar(d), base);
    assert ([DigitChar(d)] + rest)[1..] == rest;
  }

  lemma {:induction false} ReadLowFirst(n: int, base: nat)
    requires 2 <= base <= 36
    ensures ReadDigits(Reversed(LowFirst(n, base)), base) == n
    decreases Abs(n)
  {
    hide LowFirst, DigitChar, CharDigit, Quotient, Remainder;
    LowFirstEnds(base);
    if n != 0 {
      var q, d := Quotient(n, base), Remainder(n, base);
      SmallerQuotient(n, base);
      LowFirstStep(n, base);
      ReadLowFirst(q, base);
      ReadOneMore(n, base, q, d, LowFirst(q, base));
    }
  }

  /** No character is NUL; the digits of a negative number are at most '0', those of a positive one at least
      '0', and the most significant one is not '0'. */
  lemma {:induction false} LowFirstDigits(n: int, base: nat)
    requires 2 <= base <= 36
    ensures var s := LowFirst(n, base);
            && (forall i :: 0 <= i < |s| ==> s[i] as int != 0 && if n < 0 then s[i] <= '0' else '0' <= s[i])
            && (n != 0 ==> s != "" && s[|s| - 1] != '0')
    decreases Abs(n)
  {
    hide LowFirst, DigitChar, CharDigit, Quotient, Remainder;
    LowFirstEnds(base);
    if n != 0 {
      SmallerQuotient(n, base);
      LowFirstStep(n, base);
      DigitRoundTrip(Remainder(n, base));
      LowFirstDigits(Quotient(n, base), base);
    }
  }

  lemma {:induction false} ReversedAppend<T>(s: seq<T>, t: seq<T>)
    ensures Reversed(s + t) == Reversed(t) + Reversed(s)
  {
    if s == [] {
      assert s + t == t;
    } else {
      assert (s + t)[1..] == s[1..] + t;
      ReversedAppend(s[1..], t);
    }
  }

  lemma {:induction false} ReversedAt<T>(s: seq<T>, k: nat)
    requires k < |s|
    ensures Reversed(s)[k] == s[|s| - 1 - k]
  {
    if k < |s| - 1 {
      ReversedAt(s[1..], k);
    }
  }

  /** The formatted text reads back as the number, and starts with no superfluous zero. */
  lemma FormattedReads(num: int, base: nat)
    requires Formattable(num, base)
    ensures var t := Formatted(num, base);
            && ReadNumber(t, base) == num && t != "" && (num != 0 ==> t[0] != '0')
            && (num < 0 && base == 10 ==> t[0] == '-' && |t| > 1 && t[1] != '0')
  {
    hide LowFirst, Reversed, ReadDigits;
    if num == 0 {
      ReadZero(base);
    } else {
      var signed := num < 0 && base == 10;
      var n := if signed then -num else num;
      var s := LowFirst(n, base);
      ReadLowFirst(n, base);
      LowFirstDigits(n, base);
      ReversedAt(s, 0);
      if signed {
        ReversedAppend(s, "-");
        ReversedOne('-');
        assert Formatted(num, base) == "-" + Reversed(s);
        assert Formatted(num, base)[1..] == Reversed(s);
      }
    }
  }

  /** A negative number outside base 10 is not formatted as the unsigned word: its first character
      is below all digits. */
  lemma NegativeNotUnsigned(num: int, base: nat)
    requires Formattable(num, base) && num < 0 && base != 10
    ensures Formatted(num, base) != "" && Formatted(num, base)[0] < '0'
    ensures Formatted(num, base) != Reversed(LowFirst(num + 0x1_0000_0000, base))
  {
    hide LowFirst, Reversed;
    var word := num + 0x1_0000_0000;
    LowFirstDigits(num, base);
    LowFirstDigits(word, base);
    ReversedAt(LowFirst(num, base), 0);
    ReversedAt(LowFirst(word, base), 0);
  }

  /** What the comment in the source promises outside base 10: the text of the unsigned word. */
  function UnsignedText(num: int, base: nat): string
    requires 2 <= base <= 36
  {
    var word := num % 0x1_0000_0000;
    if word == 0 then "0" else Reversed(LowFirst(word, base))
  }

  /** The promise is kept exactly for the numbers that are not negative. */
  lemma UnsignedIff(num: int, base: nat)
    requires Formattable(num, base) && base != 10
    ensures Formatted(num, base) == UnsignedText(num, base) <==> num >= 0
  {
    hide LowFirst, Reversed;
    if num < 0 {
      NegativeNotUnsigned(num, base);
    }
  }

  lemma ReadZero(base: nat)
    ensures ReadDigits("0", base) == 0
  {
    assert "0"[..0] == "";
  }

  lemma ReversedOne<T>(x: T)
    ensures Reversed([x]) == [x]
  {
  }

  /** Every digit taken off at least halves the number. */
  lemma DigitOff(n: int, base: nat) returns (q: int)
    requires 2 <= base <= 36 && n != 0
    ensures 2 * Abs(q) <= Abs(n) && |LowFirst(n, base)| == 1 + |LowFirst(q, base)|
  {
    q := Quotient(n, base);
    var m := Abs(n) / base;
    assert m * base <= Abs(n);
    MulMonotone(m, 2, base);
    LowFirstStep(n, base);
  }

  /** Digits take no more room than bits. */
  lemma {:induction false} LengthBound(n: int, base: nat, m: nat)
    requires 2 <= base <= 36 && Abs(n) < Pow2(m)
    ensures |LowFirst(n, base)| <= m
    decreases Abs(n)
  {
    if n != 0 {
      var q := DigitOff(n, base);
      LengthBound(q, base, m - 1);
    }
  }

  function Pow10(k: nat): nat {
    if k == 0 then 1 else 10 * Pow10(k - 1)
  }

  lemma {:induction false} DecimalLengthBound(n: nat, k: nat)
    requires n < Pow10(k)
    ensures |LowFirst(n, 10)| <= k
  {
    if n > 0 {
      DecimalLengthBound(n / 10, k - 1);
    }
  }

  lemma FormattedLength(num: int, base: nat)
    requires Formattable(num, base)
    ensures |Formatted(num, base)| <= 32
    ensures base == 10 ==> |Formatted(num, base)| <= 11
  {
    assert Pow2(32) == 0x1_0000_0000 by {
      assert Pow2(8) == 256;
      Pow2Add(8, 8);
      Pow2Add(16, 16);
    }
    LengthBound(num, base, 32);
    if base == 10 {
      var n := Abs(num);
      assert Pow10(10) == 10_000_000_000 by {
        assert Pow10(5) == 100_000;
      }
      DecimalLengthBound(n, 10);
    }
  }

  // ----- The loops -----

  function StrLen(s: seq<char>): (n: nat)
    ensures n <= |s|
  {
    if s == [] || s[0] as int == 0 then 0 else 1 + StrLen(s[1..])
  }

  lemma {:induction false} StrLenAt(s: seq<char>, n: nat)
    requires n < |s| && s[n] as int == 0 && forall i :: 0 <= i < n ==> s[i] as int != 0
    ensures StrLen(s) == n
  {
    if n > 0 {
      StrLenAt(s[1..], n - 1);
    }
  }

  /** Reverse a C string in place; the NUL and what follows it stay. */
  method Reverse(str: array<char>, ghost n: nat)
    requires n < str.Length && n == StrLen(str[..])
    modifies str
    ensures str[..n] == Reversed(old(str[..n])) && str[n..] == old(str[n..])
  {
    hide Reversed, StrLen;
    var length: int := Strlen(str);
    ghost var before := str[..];
    var begin, end := 0, 0;
    var c := 0;
    while c < length - 1
      invariant 0 <= c && (c <= length - 1 || c == 0) && end == c && str[..] == before
    {
      end := end + 1;
      c := c + 1;
    }
    c := 0;
    while c < length / 2
      invariant 0 <= c <= length / 2 && begin == c && (length > 0 ==> end == length - 1 - c)
      invariant forall i :: 0 <= i < c ==> str[i] == before[length - 1 - i] && str[length - 1 - i] == before[i]
      invariant forall i :: c <= i < length - c ==> str[i] == before[i]
      invariant str[length..] == before[length..]
    {
      var temp := str[end];
      str[end] := str[begin];
      str[begin] := temp;
      begin := begin + 1;
      end := end - 1;
      c := c + 1;
    }
    forall i | 0 <= i < length
      ensures str[i] == Reversed(before[..length])[i]
    {
      ReversedAt(before[..length], i);
    }
  }

  method Strlen(str: array<char>) returns (n: nat)
    requires StrLen(str[..]) < str.Length
    ensures n == StrLen(str[..])
  {
    n := 0;
    assert str[..][0..] == str[..];
    while str[n] as int != 0
      invariant n < str.Length && StrLen(str[..]) == n + StrLen(str[..][n..])
      decreases str.Length - n
    {
      assert str[..][n..][1..] == str[..][n + 1..];
      n := n + 1;
    }
  }

  /** The digit loop. */
  method WriteDigits(num: int, str: array<char>, base: nat) returns (i: nat)
    requires 2 <= base <= 36 && |LowFirst(num, base)| < str.Length
    modifies str
    ensures i == |LowFirst(num, base)| && str[..i] == LowFirst(num, base)
  {
    hide LowFirst, DigitChar, Quotient, Remainder;
    var n := num;
    i := 0;
    while n != 0
      invariant 0 <= i && i + |LowFirst(n, base)| == |LowFirst(num, base)|
      invariant LowFirst(num, base) == str[..i] + LowFirst(n, base)
      decreases Abs(n)
    {
      LowFirstStep(n, base);
      SmallerQuotient(n, base);
      ghost var done, rest := str[..i], LowFirst(Quotient(n, base), base);
      var rem := Remainder(n, base);
      str[i] := DigitFor(rem);
      i := i + 1;
      n := Quotient(n, base);
      assert str[..i] == done + [DigitChar(rem)];
      assert done + ([DigitChar(rem)] + rest) == str[..i] + rest;
    }
    LowFirstEnds(base);
    assert str[..i] + "" == str[..i];
  }

  method DigitFor(rem: int) returns (c: char)
    requires -36 < rem < 36
    ensures c == DigitChar(rem)
  {
    c := if rem > 9 then (rem - 10 + 'a' as int) as char else (rem + '0' as int) as char;
  }

  /** The buffer holds the text and its NUL. */
  method Itoa(num: int, str: array<char>, base: nat)
    requires Formattable(num, base) && |Formatted(num, base)| < str.Length
    modifies str
    ensures var t := Formatted(num, base); str[..|t|] == t && str[|t|] as int == 0
  {
    hide LowFirst, Reversed, StrLen;
    var i := 0;
    if num == 0 {
      str[i] := '0';
      i := i + 1;
      str[i] := 0 as char;
      return;
    }
    var isNegative, n := false, num;
    if n < 0 && base == 10 {
      isNegative := true;
      n := -n;
    }
    ghost var digits := LowFirst(n, base);
    ghost var all := if isNegative then digits + "-" else digits;
    LowFirstDigits(n, base);
    assert Formatted(num, base) == Reversed(all);
    i := WriteDigits(n, str, base);
    if isNegative {
      str[i] := '-';
      i := i + 1;
    }
    str[i] := 0 as char;
    assert str[..i] == all;
    forall k | 0 <= k < i
      ensures str[..][k] as int != 0
    {
      assert str[k] == all[k];
    }
    StrLenAt(str[..], i);
    Reverse(str, i);
    assert str[i] == str[i..][0];
  }
}
