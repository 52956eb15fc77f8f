/**
 The transformer for uint256-shaped decimal columns: what it accepts, the canonical string it stores, and the round
 trip.
 */
module Uint256Column {
  import opened Wrappers
  import opened Utf16
  import opened JsNumbers

  // 2^256 - 1
  const MAX_UINT256 := 115792089237316195423570985008687907853269984665640564039457584007913129639935

  const MAX_SAFE_INTEGER := 9007199254740991

  datatype Value = Missing | Big(n: int) | Number(x: Num) | Str(s: Text)

  datatype Error = NonFinite | NonInteger | UnsafeInteger | NotAnInteger | Negative | TooLarge

  datatype Stored = Null | Decimal(s: Text) | Refused(e: Error)

  // ----- Decimal strings -----

  const ZERO: CodeUnit := 0x30

  predicate IsDigit(c: CodeUnit) {
    ZERO <= c <= ZERO + 9
  }

  /** BigInt.prototype.toString(10) of a non-negative value. */
  function Print(n: nat): Text {
    if n < 10 then [ZERO + n] else Print(n / 10) + [ZERO + n % 10]
  }

  function DigitValue(c: CodeUnit): (v: nat)
    ensures v <= 36
  {
    if IsDigit(c) then c - ZERO
    else if 0x61 <= c <= 0x7a then c - 0x61 + 10  // a-z
    else if 0x41 <= c <= 0x5a then c - 0x41 + 10  // A-Z
    else 36
  }

  predicate AllDigits(s: Text, radix: nat) {
    forall i :: 0 <= i < |s| ==> DigitValue(s[i]) < radix
  }

  function DigitsValue(s: Text, radix: nat): nat {
    if s == [] then 0 else DigitsValue(s[..|s| - 1], radix) * radix + DigitValue(s[|s| - 1])
  }

  function ParseDigits(s: Text, radix: nat): Option<int> {
    if s != [] && AllDigits(s, radix) then Some(DigitsValue(s, radix)) else None
  }

  /** BigInt(string) on a trimmed, non-empty string: decimal digits with an optional sign, or an unsigned literal with
      one of the prefixes 0x, 0o and 0b. */
  function ParseBigInt(s: Text): Option<int> {
    if |s| >= 2 && s[0] == ZERO && s[1] in {0x78, 0x58} then ParseDigits(s[2..], 16)
    else if |s| >= 2 && s[0] == ZERO && s[1] in {0x6f, 0x4f} then ParseDigits(s[2..], 8)
    else if |s| >= 2 && s[0] == ZERO && s[1] in {0x62, 0x42} then ParseDigits(s[2..], 2)
    else if s != [] && s[0] == 0x2b then ParseDigits(s[1..], 10)
    else if s != [] && s[0] == 0x2d then
      var n := ParseDigits(s[1..], 10);
      if n.Some? then Some(-n.value) else None
    else ParseDigits(s, 10)
  }

  // ----- The transformer -----

  function Range(n: int): Stored {
    if n < 0 then Refused(Negative)
    else if n > MAX_UINT256 then Refused(TooLarge)
    else Decimal(Print(n))
  }

  function To(v: Value): Stored {
    match v
    case Missing => Null
    case Big(n) => Range(n)
    case Number(x) =>
      if !x.Fin? then Refused(NonFinite)
      else if x.value.Floor as real != x.value then Refused(NonInteger)
      else if !(-MAX_SAFE_INTEGER <= x.value.Floor <= MAX_SAFE_INTEGER) then Refused(UnsafeInteger)
      else Range(x.value.Floor)
    case Str(s) =>
      var trimmed := Trim(s);
      if trimmed == [] then Null
      else
        var n := ParseBigInt(trimmed);
        if n.None? then Refused(NotAnInteger) else Range(n.value)
  }

  function From(column: Option<Text>): Option<Text> {
    column
  }

  /** The integer a value stands for, if it stands for one. */
  ghost function Meaning(v: Value): Option<int> {
    match v
    case Missing => None
    case Big(n) => Some(n)
    case Number(x) =>
      if x.Fin? && x.value.Floor as real == x.value && -MAX_SAFE_INTEGER <= x.value.Floor <= MAX_SAFE_INTEGER
      then Some(x.value.Floor) else None
    case Str(s) => if Trim(s) == [] then None else ParseBigInt(Trim(s))
  }

  // ----- Printing and parsing -----

  ghost predicate Canonical(s: Text) {
    && s != [] && (forall i :: 0 <= i < |s| ==> IsDigit(s[i]))
    && (|s| > 1 ==> s[0] != ZERO)
  }

  lemma {:induction false} PrintIsCanonical(n: nat)
    ensures Canonical(Print(n))
    ensures n > 0 ==> Print(n)[0] != ZERO
  {
    if n >= 10 {
      PrintIsCanonical(n / 10);
    }
  }

  lemma {:induction false} PrintParses(n: nat)
    ensures AllDigits(Print(n), 10) && DigitsValue(Print(n), 10) == n
  {
    if n < 10 {
      assert DigitsValue([], 10) == 0;
      assert Print(n)[..0] == [];
    } else {
      PrintParses(n / 10);
      assert Print(n)[..|Print(n)| - 1] == Print(n / 10);
    }
  }

  lemma CanonicalParse(s: Text)
    requires Canonical(s)
    ensures ParseBigInt(s) == Some(DigitsValue(s, 10)) && AllDigits(s, 10)
  {
  }

  lemma {:induction false} CanonicalIsPositive(s: Text)
    requires Canonical(s) && s[0] != ZERO
    ensures DigitsValue(s, 10) > 0
  {
    if |s| > 1 {
      var init := s[..|s| - 1];
      assert init[0] == s[0] && forall i :: 0 <= i < |init| ==> init[i] == s[i];
      CanonicalIsPositive(init);
    } else {
      assert s[..0] == [];
    }
  }

  /** Every canonical string is what its value prints as. */
  lemma {:induction false} PrintRestores(s: Text)
    requires Canonical(s)
    ensures Print(DigitsValue(s, 10)) == s
  {
    var init, last := s[..|s| - 1], s[|s| - 1];
    if |s| > 1 {
      assert init[0] == s[0] && forall i :: 0 <= i < |init| ==> init[i] == s[i];
      CanonicalIsPositive(init);
      PrintRestores(init);
      assert DigitsValue(s, 10) / 10 == DigitsValue(init, 10);
      assert s == init + [last];
    } else {
      assert init == [];
    }
  }

  lemma TrimKeepsCanonical(s: Text)
    requires Canonical(s)
    ensures Trim(s) == s
  {
    assert LeadLength(s) == 0;
    assert TrimStart(s) == s;
    assert BodyLength(s) == |s|;
  }

  // ----- Length -----

  lemma {:induction false} PrintLength(n: nat, k: nat)
    requires n < Pow10(k) && k > 0
    ensures |Print(n)| <= k
  {
    if n >= 10 {
      assert k > 1;
      PrintLength(n / 10, k - 1);
    }
  }

  lemma Pow10Add(a: nat, b: nat)
    ensures Pow10(a + b) == Pow10(a) * Pow10(b)
  {
    if a > 0 {
      Pow10Add(a - 1, b);
    }
  }

  lemma UintFitsNumeric78()
    ensures MAX_UINT256 < Pow10(78)
  {
    assert Pow10(13) == 10000000000000;
    Pow10Add(13, 13);
    Pow10Add(26, 13);
    Pow10Add(39, 39);
  }

  // ----- The theorems -----

  /** A value is stored if and only if it stands for an integer between 0 and 2^256 - 1; what is stored is that
      integer's canonical decimal string, which parses back to it and has at most 78 digits. */
  lemma StoresExactlyUint256(v: Value)
    ensures To(v).Decimal? <==> Meaning(v).Some? && 0 <= Meaning(v).value <= MAX_UINT256
    ensures To(v).Decimal? ==>
              && Canonical(To(v).s)
              && ParseBigInt(To(v).s) == Meaning(v)
              && |To(v).s| <= 78
  {
    if To(v).Decimal? {
      var n := Meaning(v).value;
      PrintIsCanonical(n);
      PrintParses(n);
      CanonicalParse(Print(n));
      UintFitsNumeric78();
      PrintLength(n, 78);
    }
  }

  /** Reading a stored value back and storing it again changes nothing. */
  lemma StoredValuesAreFixed(v: Value)
    requires To(v).Decimal?
    ensures To(Str(From(Some(To(v).s)).value)) == To(v)
  {
    StoresExactlyUint256(v);
    TrimKeepsCanonical(To(v).s);
  }

  /** Two stored values have equal columns if and only if they stand for the same integer. */
  lemma StoredEqualIffSameInteger(v: Value, w: Value)
    requires To(v).Decimal? && To(w).Decimal?
    ensures To(v) == To(w) <==> Meaning(v) == Meaning(w)
  {
    StoresExactlyUint256(v);
    StoresExactlyUint256(w);
  }

  /** The strings stored unchanged are exactly the canonical decimal strings of values in range. */
  lemma FixedStringsAreCanonical(s: Text)
    ensures To(Str(s)) == Decimal(s) <==> Canonical(s) && DigitsValue(s, 10) <= MAX_UINT256
  {
    if Canonical(s) {
      TrimKeepsCanonical(s);
      CanonicalParse(s);
      PrintRestores(s);
    }
    if To(Str(s)) == Decimal(s) {
      StoresExactlyUint256(Str(s));
    }
  }

  /** Against the comment in the source, BigInt takes "0xff": it is stored as "255". */
  lemma HexLiteralIsAccepted()
    ensures To(Str([ZERO, 0x78, 0x66, 0x66])) == Decimal([0x32, 0x35, 0x35])
  {
    var s: Text := [ZERO, 0x78, 0x66, 0x66];
    assert LeadLength(s) == 0 && TrimStart(s) == s && BodyLength(s) == 4 && Trim(s) == s;
    var hex: Text := [0x66, 0x66];
    assert s[2..] == hex && hex[..1] == [0x66];
    assert DigitsValue([0x66], 16) == DigitsValue([0x66][..0], 16) * 16 + 15;
    assert DigitsValue(hex, 16) == 255;
    assert Print(255) == Print(25) + [0x35] == Print(2) + [0x35] + [0x35];
  }

  // ----- What strings mean -----

  /** Written in a radix, in lower case. */
  function PrintIn(n: nat, radix: nat): Text
    requires 2 <= radix <= 16
  {
    if n < radix then [DigitOf(n)] else PrintIn(n / radix, radix) + [DigitOf(n % radix)]
  }

  function DigitOf(v: nat): CodeUnit
    requires v < 16
  {
    if v < 10 then '0' as int + v else 'a' as int + v - 10
  }

  lemma DigitsSnoc(init: Text, c: CodeUnit, radix: nat)
    ensures DigitsValue(init + [c], radix) == DigitsValue(init, radix) * radix + DigitValue(c)
    ensures AllDigits(init + [c], radix) <==> AllDigits(init, radix) && DigitValue(c) < radix
  {
    assert (init + [c])[..|init|] == init;
    assert AllDigits(init + [c], radix) ==> DigitValue((init + [c])[|init|]) < radix;
    assert forall i :: 0 <= i < |init| ==> (init + [c])[i] == init[i];
  }

  lemma DigitIs(v: nat)
    requires v < 16
    ensures DigitValue(DigitOf(v)) == v && !IsSpace(DigitOf(v))
  {
  }

  lemma Euclid(n: nat, radix: nat)
    requires radix > 0
    ensures n / radix * radix + n % radix == n && n % radix < radix
  {
  }

  ghost predicate Writes(s: Text, n: nat, radix: nat) {
    s != [] && NoSpace(s) && AllDigits(s, radix) && DigitsValue(s, radix) == n
  }

  lemma WritesOne(v: nat, radix: nat)
    requires v < radix <= 16
    ensures Writes([DigitOf(v)], v, radix)
  {
    DigitIs(v);
    DigitsSnoc([], DigitOf(v), radix);
    assert [] + [DigitOf(v)] == [DigitOf(v)] && DigitsValue([], radix) == 0;
  }

  lemma WritesNext(s: Text, q: nat, v: nat, radix: nat)
    requires Writes(s, q, radix) && v < radix <= 16
    ensures Writes(s + [DigitOf(v)], q * radix + v, radix)
  {
    DigitIs(v);
    DigitsSnoc(s, DigitOf(v), radix);
  }

  lemma {:induction false} PrintInParses(n: nat, radix: nat)
    requires 2 <= radix <= 16
    ensures Writes(PrintIn(n, radix), n, radix)
  {
    if n < radix {
      WritesOne(n, radix);
    } else {
      Euclid(n, radix);
      PrintInParses(n / radix, radix);
      WritesNext(PrintIn(n / radix, radix), n / radix, n % radix, radix);
    }
  }

  lemma NoSpaceIsTrimmed(prefix: Text, digits: Text)
    requires NoSpace(prefix) && NoSpace(digits) && digits != []
    ensures Trim(prefix + digits) == prefix + digits
  {
    var s := prefix + digits;
    assert s[|s| - 1] == digits[|digits| - 1];
    TrimIsIdentity(s);
  }

  /** The letter of a literal in that radix, in either case. */
  ghost predicate IsRadixLetter(c: CodeUnit, radix: nat) {
    || (radix == 16 && (Is(c, 'x') || Is(c, 'X'))) || (radix == 8 && (Is(c, 'o') || Is(c, 'O')))
    || (radix == 2 && (Is(c, 'b') || Is(c, 'B')))
  }

  /** Hexadecimal, octal and binary literals are stored as the integer they write. */
  lemma LiteralsAreRead(n: nat, radix: nat, letter: CodeUnit)
    requires radix in {2, 8, 16} && IsRadixLetter(letter, radix)
    ensures To(Str(['0' as int, letter] + PrintIn(n, radix))) == To(Big(n))
  {
    var prefix, digits := ['0' as int, letter], PrintIn(n, radix);
    PrintInParses(n, radix);
    NoSpaceIsTrimmed(prefix, digits);
    var s := prefix + digits;
    assert s[0] == '0' as int && s[1] == letter && s[2..] == digits;
  }

  lemma PlainIs(digits: Text)
    requires Canonical(digits) && AllDigits(digits, 10)
    ensures Trim(digits) == digits && ParseBigInt(digits) == Some(DigitsValue(digits, 10))
  {
    TrimKeepsCanonical(digits);
    CanonicalParse(digits);
  }

  lemma SignedIs(sign: CodeUnit, digits: Text)
    requires (Is(sign, '+') || Is(sign, '-')) && Canonical(digits) && AllDigits(digits, 10)
    ensures var s, n: int := [sign] + digits, DigitsValue(digits, 10);
            s != [] && Trim(s) == s && ParseBigInt(s) == Some(if Is(sign, '-') then -n else n)
  {
    assert NoSpace(digits);
    NoSpaceIsTrimmed([sign], digits);
    assert ([sign] + digits)[1..] == digits && ([sign] + digits)[0] == sign;
  }

  /** A decimal string is stored as its integer, with a plus sign too. */
  lemma PlusIsRead(n: nat)
    ensures To(Str(Print(n))) == To(Big(n)) && To(Str(['+' as int] + Print(n))) == To(Big(n))
  {
    PrintIsCanonical(n);
    PrintParses(n);
    PlainIs(Print(n));
    SignedIs('+' as int, Print(n));
  }

  /** With a minus sign it is refused as negative unless it is zero. */
  lemma MinusIsRead(n: nat)
    ensures To(Str(['-' as int] + Print(n))) == if n == 0 then Decimal(Ascii("0")) else Refused(Negative)
  {
    PrintIsCanonical(n);
    PrintParses(n);
    SignedIs('-' as int, Print(n));
    ZeroSpells();
  }

  lemma ZeroSpells()
    ensures Ascii("0") == [ZERO] && Print(0) == [ZERO]
  {
  }

  lemma BoundIsTwoTo256()
    ensures MAX_UINT256 == 0xFFFF_FFFF_FFFF_FFFF_FFFF_FFFF_FFFF_FFFF_FFFF_FFFF_FFFF_FFFF_FFFF_FFFF_FFFF_FFFF
  {
  }

  ghost predicate IsInt(x: real, n: int) {
    n as real == x
  }

  /** What is refused, and why: a missing or blank value is null; an integer below zero or above 2^256 - 1 is out of
      range; a number that is not finite, not whole or beyond 2^53 - 1, and a string that is no integer, are refused
      as such. */
  lemma RefusalsAreExact(v: Value)
    ensures To(v).Null? <==> v.Missing? || (v.Str? && AllSpace(v.s))
    ensures To(v) == Refused(Negative) <==> Meaning(v).Some? && Meaning(v).value < 0
    ensures To(v) == Refused(TooLarge) <==> Meaning(v).Some? && Meaning(v).value > MAX_UINT256
    ensures To(v) == Refused(NonFinite) <==> v.Number? && !v.x.Fin?
    ensures To(v) == Refused(NonInteger) <==> v.Number? && v.x.Fin? && forall n :: !IsInt(v.x.value, n)
    ensures To(v) == Refused(UnsafeInteger) <==>
              v.Number? && v.x.Fin?
              && exists n :: IsInt(v.x.value, n) && (n > 9007199254740991 || n < -9007199254740991)
    ensures To(v) == Refused(NotAnInteger) <==> v.Str? && !AllSpace(v.s) && ParseBigInt(Trim(v.s)).None?
  {
    if v.Str? {
      BlankIsTrimmed(v.s);
    }
    if v.Number? && v.x.Fin? {
      assert IsInt(v.x.value, v.x.value.Floor) <==> exists n :: IsInt(v.x.value, n);
    }
  }

  lemma BlankIsTrimmed(s: Text)
    ensures Trim(s) == [] <==> AllSpace(s)
  {
    LeadIsSpace(s);
    TailIsSpace(TrimStart(s));
    if Trim(s) == [] {
      assert s == s[..LeadLength(s)] + TrimStart(s);
    } else {
      assert TrimStart(s)[0] == s[LeadLength(s)];
    }
  }
}
