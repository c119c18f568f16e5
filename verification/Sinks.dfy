/** The functions at the end of every writer, each modelled as the text it has received so far. */
module Sinks {

  /** A character handed on as a one-character C string arrives as nothing if it is NUL. */
  function OneChar(ch: char): string {
    if ch == '\0' then "" else [ch]
  }

  /** What arrives of s when it is handed on one character at a time. */
  function Relayed(s: string): string {
    if s == "" then "" else Relayed(s[..|s| - 1]) + OneChar(s[|s| - 1])
  }

  lemma RelayedOneMore(s: string, ch: char)
    ensures Relayed(s + [ch]) == Relayed(s) + OneChar(ch)
  {
    assert (s + [ch])[..|s|] == s;
  }

  lemma {:induction false} RelayedWhole(s: string)
    requires '\0' !in s
    ensures Relayed(s) == s
    decreases |s|
  {
    if s != "" {
      var n := |s| - 1;
      assert s == s[..n] + [s[n]] && s[n] in s;
      RelayedWhole(s[..n]);
    }
  }

  /** A NUL in between is lost and nothing else. */
  lemma {:induction false} RelayedWithoutNul(s: string, t: string)
    ensures Relayed(s + ['\0'] + t) == Relayed(s) + Relayed(t)
    decreases |t|
  {
    if t == "" {
      assert s + ['\0'] + t == s + ['\0'];
      RelayedOneMore(s, '\0');
    } else {
      var n := |t| - 1;
      assert s + ['\0'] + t == (s + ['\0'] + t[..n]) + [t[n]];
      RelayedOneMore(s + ['\0'] + t[..n], t[n]);
      RelayedWithoutNul(s, t[..n]);
    }
  }

  /** Call every sink with the text. */
  method SendAll(sinks: array<string>, text: string)
    modifies sinks
    ensures forall i :: 0 <= i < sinks.Length ==> sinks[i] == old(sinks[i]) + text
  {
    for i := 0 to sinks.Length
      invariant forall k :: 0 <= k < i ==> sinks[k] == old(sinks[k]) + text
      invariant forall k :: i <= k < sinks.Length ==> sinks[k] == old(sinks[k])
    {
      sinks[i] := sinks[i] + text;
    }
  }
}
