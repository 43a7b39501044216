/**
 * Decimal text of integers, as JavaScript's `String(n)`, `n.toString()` and
 * template literals render an integer-valued number, and the prefix parsing
 * that `parseInt` performs.
 */
module Decimal {

  predicate IsDigit(c: char) {
    '0' <= c <= '9'
  }

  predicate AllDigits(s: string) {
    forall i :: 0 <= i < |s| ==> IsDigit(s[i])
  }

  function DigitChar(d: nat): (c: char)
    requires d < 10
    ensures IsDigit(c) && DigitValue(c) == d
  {
    ('0' as int + d) as char
  }

  function DigitValue(c: char): nat
    requires IsDigit(c)
  {
    c as int - '0' as int
  }

  /** The decimal rendering of a natural number: digits only, no leading zero. */
  function NatToString(n: nat): (s: string)
    ensures |s| > 0 && AllDigits(s)
    ensures s[0] == '0' ==> n == 0
    ensures n < 10 <==> |s| == 1
  {
    if n < 10 then [DigitChar(n)] else NatToString(n / 10) + [DigitChar(n % 10)]
  }

  /** The value of a string of decimal digits (the empty string is 0). */
  function ParseNat(s: string): nat
    requires AllDigits(s)
  {
    if s == [] then 0 else ParseNat(s[..|s| - 1]) * 10 + DigitValue(s[|s| - 1])
  }

  /** Reading back the rendering of `n` gives `n`. */
  lemma {:induction false} ParseNatToString(n: nat)
    ensures ParseNat(NatToString(n)) == n
  {
    if n >= 10 {
      var s := NatToString(n / 10);
      assert NatToString(n) == s + [DigitChar(n % 10)];
      assert (s + [DigitChar(n % 10)])[..|s|] == s;
      ParseNatToString(n / 10);
    }
  }

  /** The rendering is injective: distinct numbers render as distinct texts. */
  lemma NatToStringInjective(a: nat, b: nat)
    ensures NatToString(a) == NatToString(b) ==> a == b
  {
    ParseNatToString(a);
    ParseNatToString(b);
  }

  /** `String(i)` for an integer-valued JavaScript number (negative zero renders as "0"). */
  function IntToString(i: int): (s: string)
    ensures |s| > 0
    ensures i >= 0 ==> s == NatToString(i)
    ensures i < 0 ==> s == "-" + NatToString(-i)
  {
    if i < 0 then "-" + NatToString(-i) else NatToString(i)
  }

  /** The longest prefix of `s` made of decimal digits. */
  function DigitPrefix(s: string): (p: string)
    ensures AllDigits(p) && p <= s
    ensures |p| < |s| ==> !IsDigit(s[|p|])
  {
    if s == [] || !IsDigit(s[0]) then [] else [s[0]] + DigitPrefix(s[1..])
  }

  /**
   * An integer-valued JavaScript number or NaN: what `parseInt` yields and what
   * a passenger count held by the search form can be.
   */
  datatype Num = NaN | Int(value: int) {
    /** `toString()`: "NaN" or the decimal rendering of the integer. */
    function ToString(): string {
      match this
      case NaN => "NaN"
      case Int(i) => IntToString(i)
    }

    /** JavaScript truthiness: NaN and zero are falsy. */
    predicate Truthy() {
      Int? && value != 0
    }
  }

  /**
   * `parseInt(s)` for a text that starts with an optional sign and then
   * digits: the sign and the longest digit prefix are read and the rest is
   * ignored; without any digit the result is NaN.
   */
  function ParseInt(s: string): (r: Num)
    ensures r.NaN? <==> DigitPrefix(if |s| > 0 && (s[0] == '-' || s[0] == '+') then s[1..] else s) == []
  {
    var negative := |s| > 0 && s[0] == '-';
    var rest := if |s| > 0 && (s[0] == '-' || s[0] == '+') then s[1..] else s;
    var digits := DigitPrefix(rest);
    if digits == [] then NaN
    else if negative then Int(-(ParseNat(digits) as int))
    else Int(ParseNat(digits))
  }

  lemma AllDigitsPrefix(s: string)
    requires AllDigits(s)
    ensures DigitPrefix(s) == s
  {
    if s != [] {
      AllDigitsPrefix(s[1..]);
    }
  }

  /** `parseInt` reads back every value `toString` wrote, NaN included. */
  lemma ParseIntToString(n: Num)
    ensures ParseInt(n.ToString()) == n
  {
    if n.Int? {
      var i := n.value;
      var m: nat := if i < 0 then -i else i;
      var s := NatToString(m);
      AllDigitsPrefix(s);
      ParseNatToString(m);
      if i < 0 {
        assert n.ToString() == "-" + s;
        assert ("-" + s)[1..] == s;
      }
    }
  }

  /** Leading zeros are dropped: a digit string is read as its value. */
  lemma ParseIntOfDigits(s: string)
    requires |s| > 0 && AllDigits(s)
    ensures ParseInt(s) == Int(ParseNat(s))
  {
    AllDigitsPrefix(s);
  }
}
