/**
 JavaScript strings: sequences of UTF-16 code units, with the whitespace that trim, trimStart, trimEnd and \s agree on.
 */
module Utf16 {
  type CodeUnit = x: int | 0 <= x < 0x1_0000

  type Text = seq<CodeUnit>

  const SPACE: CodeUnit := 0x20

  predicate IsSpace(c: CodeUnit) {
    || 0x09 <= c <= 0x0d || c == 0x20 || c == 0xa0 || c == 0x1680 || 0x2000 <= c <= 0x200a
    || c == 0x2028 || c == 0x2029 || c == 0x202f || c == 0x205f || c == 0x3000 || c == 0xfeff
  }

  predicate AllSpace(s: Text) {
    forall i :: 0 <= i < |s| ==> IsSpace(s[i])
  }

  predicate NoSpace(s: Text) {
    forall i :: 0 <= i < |s| ==> !IsSpace(s[i])
  }

  /** Number of units before the first whitespace. */
  function WordLength(s: Text): (n: nat)
    ensures n <= |s| && NoSpace(s[..n]) && (n < |s| ==> IsSpace(s[n]))
  {
    if s == [] || IsSpace(s[0]) then 0 else 1 + WordLength(s[1..])
  }

  /** Number of whitespace units at the start. */
  function LeadLength(s: Text): (n: nat)
    ensures n <= |s|
  {
    if s != [] && IsSpace(s[0]) then 1 + LeadLength(s[1..]) else 0
  }

  /** Length without the whitespace at the end. */
  function BodyLength(s: Text): (n: nat)
    ensures n <= |s|
  {
    if s != [] && IsSpace(s[|s| - 1]) then BodyLength(s[..|s| - 1]) else |s|
  }

  function TrimStart(s: Text): (r: Text)
    ensures |r| <= |s|
  {
    s[LeadLength(s)..]
  }

  function TrimEnd(s: Text): (r: Text)
    ensures |r| <= |s|
  {
    s[..BodyLength(s)]
  }

  lemma {:induction false} LeadIsSpace(s: Text)
    ensures AllSpace(s[..LeadLength(s)])
    ensures TrimStart(s) != [] ==> !IsSpace(TrimStart(s)[0])
  {
    if s != [] && IsSpace(s[0]) {
      LeadIsSpace(s[1..]);
      assert s[..LeadLength(s)] == [s[0]] + s[1..][..LeadLength(s[1..])];
      assert TrimStart(s) == TrimStart(s[1..]);
    }
  }

  lemma {:induction false} TailIsSpace(s: Text)
    ensures AllSpace(s[BodyLength(s)..])
    ensures TrimEnd(s) != [] ==> !IsSpace(TrimEnd(s)[|TrimEnd(s)| - 1])
  {
    if s != [] && IsSpace(s[|s| - 1]) {
      var init := s[..|s| - 1];
      TailIsSpace(init);
      assert s[BodyLength(s)..] == init[BodyLength(init)..] + [s[|s| - 1]];
      assert TrimEnd(s) == TrimEnd(init);
    }
  }

  function Trim(s: Text): Text {
    TrimEnd(TrimStart(s))
  }

  /** A text with no whitespace at either end is its own trim. */
  lemma TrimIsIdentity(s: Text)
    requires s != [] ==> !IsSpace(s[0]) && !IsSpace(s[|s| - 1])
    ensures Trim(s) == s
  {
    assert TrimStart(s) == s;
  }

  lemma TrimIsTrimmed(s: Text)
    ensures Trim(s) != [] ==> !IsSpace(Trim(s)[0]) && !IsSpace(Trim(s)[|Trim(s)| - 1])
  {
    LeadIsSpace(s);
    TailIsSpace(TrimStart(s));
  }

  // ----- ASCII literals -----

  /** A literal as code units, for characters of the basic plane. */
  ghost function Ascii(s: string): Text {
    seq(|s|, i requires 0 <= i < |s| => s[i] as int % 0x1_0000)
  }

  /** The code unit is that character. */
  ghost predicate Is(c: CodeUnit, ch: char) {
    c == ch as int
  }

  ghost predicate Between(c: CodeUnit, first: char, last: char) {
    first as int <= c <= last as int
  }

  /** Position of the last occurrence, or -1. */
  function LastIndexOf(s: Text, c: CodeUnit): (r: int)
    ensures -1 <= r < |s|
    ensures r >= 0 ==> s[r] == c
    ensures forall i :: r < i < |s| ==> s[i] != c
  {
    if s == [] then -1
    else if s[|s| - 1] == c then |s| - 1
    else LastIndexOf(s[..|s| - 1], c)
  }
}
