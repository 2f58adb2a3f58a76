/**
 * Integers as text: `toString()` on a `bigint` (decimal, with a minus sign
 * for negatives) and the `BigInt(string)` conversion, which follows
 * ECMA-262's StringToBigInt: surrounding whitespace is ignored, blank text
 * is 0n, decimal text may carry a sign, and `0x`/`0o`/`0b` prefixes select
 * radix 16, 8 or 2; anything else throws a SyntaxError.
 */
module Decimal {
  import opened Wrappers
  import opened Text

  /** The value of digit character `c` in `radix`, if it is one. */
  function DigitValue(c: char): (d: nat)
    ensures d <= 36
  {
    if '0' <= c <= '9' then c as int - '0' as int
    else if 'a' <= c <= 'z' then c as int - 'a' as int + 10
    else if 'A' <= c <= 'Z' then c as int - 'A' as int + 10
    else 36
  }

  predicate IsDigitIn(c: char, radix: nat) {
    DigitValue(c) < radix
  }

  predicate AllDigitsIn(s: string, radix: nat) {
    forall i | 0 <= i < |s| :: IsDigitIn(s[i], radix)
  }

  /** The number that the digit string `s` denotes in `radix`. */
  function ValueIn(s: string, radix: nat): nat
    requires AllDigitsIn(s, radix)
  {
    if s == [] then 0 else ValueIn(s[..|s| - 1], radix) * radix + DigitValue(s[|s| - 1])
  }

  function DigitChar(d: nat): (c: char)
    requires d < 10
    ensures '0' <= c <= '9' && DigitValue(c) == d
  {
    ('0' as int + d) as char
  }

  /** A decimal numeral without superfluous leading zeros, as `toString()` prints it. */
  predicate IsCanonicalDecimal(s: string) {
    s != [] && AllDigitsIn(s, 10) && (s[0] == '0' ==> |s| == 1)
  }

  /** `n.toString()` for a non-negative `bigint`. */
  function NatToString(n: nat): (r: string)
    ensures IsCanonicalDecimal(r)
    ensures (forall i | 0 <= i < |r| :: '0' <= r[i] <= '9')
    decreases n
  {
    if n < 10 then [DigitChar(n)] else NatToString(n / 10) + [DigitChar(n % 10)]
  }

  /** Reading back what `NatToString` prints gives the number again. */
  lemma {:induction false} NatToStringValue(n: nat)
    ensures ValueIn(NatToString(n), 10) == n
    decreases n
  {
    var r := NatToString(n);
    if n >= 10 {
      NatToStringValue(n / 10);
      assert r[..|r| - 1] == NatToString(n / 10);
    }
  }

  /** Printing the value of a canonical numeral gives the numeral again. */
  lemma {:induction false} CanonicalDecimalRoundTrip(s: string)
    requires IsCanonicalDecimal(s)
    ensures NatToString(ValueIn(s, 10)) == s
    decreases |s|
  {
    if |s| > 1 {
      var init := s[..|s| - 1];
      assert IsCanonicalDecimal(init);
      CanonicalDecimalRoundTrip(init);
      ValuePositive(init);
      var v := ValueIn(s, 10);
      assert v / 10 == ValueIn(init, 10) && v % 10 == DigitValue(s[|s| - 1]);
      assert s == init + [s[|s| - 1]];
    }
  }

  lemma {:induction false} ValuePositive(s: string)
    requires IsCanonicalDecimal(s) && |s| > 0 && s[0] != '0'
    ensures ValueIn(s, 10) > 0
    decreases |s|
  {
    if |s| > 1 {
      var init := s[..|s| - 1];
      assert init[0] == s[0];
      ValuePositive(init);
    }
  }

  /** Distinct numbers print as distinct numerals. */
  lemma NatToStringInjective(m: nat, n: nat)
    ensures NatToString(m) == NatToString(n) ==> m == n
  {
    NatToStringValue(m);
    NatToStringValue(n);
  }

  /** `i.toString()` for any `bigint`. */
  function IntToString(i: int): (r: string)
    ensures r != [] && (r == "0" || r[0] != '0')
  {
    if i < 0 then "-" + NatToString(-i) else NatToString(i)
  }

  /** `BigInt(s)` for a string argument: `None` stands for the SyntaxError it throws. */
  function StringToBigInt(s: string): (r: Option<int>)
    ensures IsBlank(s) ==> r == Some(0)
  {
    BlankIffTrimEmpty(s);
    var t := Trim(s);
    if t == [] then Some(0) else ParseTrimmed(t)
  }

  /** StringIntegerLiteral without the surrounding whitespace. */
  function ParseTrimmed(t: string): (r: Option<int>)
    requires t != []
  {
    if |t| >= 2 && t[0] == '0' && (t[1] == 'x' || t[1] == 'X') then Unsigned(t[2..], 16)
    else if |t| >= 2 && t[0] == '0' && (t[1] == 'o' || t[1] == 'O') then Unsigned(t[2..], 8)
    else if |t| >= 2 && t[0] == '0' && (t[1] == 'b' || t[1] == 'B') then Unsigned(t[2..], 2)
    else if t[0] == '-' then
      match Unsigned(t[1..], 10)
      case Some(v) => Some(-v)
      case None => None
    else if t[0] == '+' then Unsigned(t[1..], 10)
    else Unsigned(t, 10)
  }

  /** A non-empty run of digits in `radix`, or a syntax error. */
  function Unsigned(s: string, radix: nat): (r: Option<int>)
    ensures r.Some? ==> r.value >= 0
  {
    if s != [] && AllDigitsIn(s, radix) then Some(ValueIn(s, radix)) else None
  }

  lemma TrimUnchanged(s: string)
    requires s != [] && !IsWhitespace(s[0]) && !IsWhitespace(s[|s| - 1])
    ensures Trim(s) == s
  {
  }

  /** `BigInt` reads back the numeral `toString()` prints for a non-negative number. */
  lemma ParseDigits(d: string)
    requires IsCanonicalDecimal(d)
    ensures StringToBigInt(d) == Some(ValueIn(d, 10))
  {
    assert '0' <= d[0] <= '9' && '0' <= d[|d| - 1] <= '9';
    TrimUnchanged(d);
  }

  lemma ParseNegated(d: string)
    requires IsCanonicalDecimal(d)
    ensures StringToBigInt("-" + d) == Some(0 - ValueIn(d, 10))
  {
    var r := "-" + d;
    assert r[|r| - 1] == d[|d| - 1];
    assert '0' <= d[|d| - 1] <= '9';
    TrimUnchanged(r);
    ParseMinus(r, d);
  }

  lemma ParseMinus(r: string, d: string)
    requires IsCanonicalDecimal(d) && r == "-" + d
    ensures ParseTrimmed(r) == Some(0 - ValueIn(d, 10))
  {
    assert r[0] == '-' && r[1..] == d;
  }

  /**
   * Round trip used by the evidence form: the option value of an incident is
   * `id.toString()`, and `BigInt` of that text is the id again.
   */
  lemma StringToBigIntOfToString(i: int)
    ensures StringToBigInt(IntToString(i)) == Some(i)
  {
    var n: nat := if i < 0 then -i else i;
    var d := NatToString(n);
    NatToStringValue(n);
    if i < 0 {
      ParseNegated(d);
      assert IntToString(i) == "-" + d;
    } else {
      ParseDigits(d);
      assert IntToString(i) == d;
    }
  }

  /** `toString()` of a `bigint` has no surrounding whitespace, so `trim` keeps it. */
  lemma IntToStringTrimmed(i: int)
    ensures Trim(IntToString(i)) == IntToString(i) != []
  {
    var r := IntToString(i);
    var n: nat := if i < 0 then -i else i;
    var d := NatToString(n);
    assert '0' <= d[|d| - 1] <= '9';
    if i < 0 {
      assert r == "-" + d && r[|r| - 1] == d[|d| - 1];
    } else {
      assert r == d && '0' <= d[0] <= '9';
    }
    TrimUnchanged(r);
  }
}
