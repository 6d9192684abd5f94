/** Decimal numbers as text: printing, and the reading that `std::stoul` does. */
module Decimals {

  import opened Words

  predicate IsDigit(c: char) {
    '0' <= c <= '9'
  }

  predicate IsSpace(c: char) {
    c == ' ' || '\t' <= c <= '\r'
  }

  function DigitOf(c: char): (d: nat)
    requires IsDigit(c)
    ensures d < 10
  {
    c as int - '0' as int
  }

  function DigitChar(d: nat): (c: char)
    requires d < 10
    ensures IsDigit(c) && DigitOf(c) == d
  {
    '0' + d as char
  }

  function Decimal(n: nat): (s: string)
    ensures s != [] && forall i | 0 <= i < |s| :: IsDigit(s[i])
  {
    if n < 10 then [DigitChar(n)] else Decimal(n / 10) + [DigitChar(n % 10)]
  }

  /** The number that a string of digits denotes. */
  function Value(digits: string): nat
    requires forall i | 0 <= i < |digits| :: IsDigit(digits[i])
  {
    if digits == [] then 0
    else
      var n := |digits| - 1;
      Value(digits[..n]) * 10 + DigitOf(digits[n])
  }

  lemma {:induction false} ValueOfDecimal(n: nat)
    ensures Value(Decimal(n)) == n
  {
    if n < 10 {
      assert Decimal(n)[..0] == [];
    } else {
      ValueOfDecimal(n / 10);
      assert Decimal(n)[..|Decimal(n)| - 1] == Decimal(n / 10);
    }
  }

  /** The digits at the front. */
  function Digits(s: string): (d: string)
    ensures forall i | 0 <= i < |d| :: IsDigit(d[i])
  {
    if s == [] || !IsDigit(s[0]) then [] else [s[0]] + Digits(s[1..])
  }

  lemma {:induction false} DigitsAtFront(d: string, rest: string)
    requires forall i | 0 <= i < |d| :: IsDigit(d[i])
    requires rest == [] || !IsDigit(rest[0])
    ensures Digits(d + rest) == d
  {
    if d == [] {
      assert d + rest == rest;
    } else {
      DigitsAtFront(d[1..], rest);
      assert (d + rest)[1..] == d[1..] + rest;
    }
  }

  function SkipSpaces(s: string): (r: string)
    ensures r == [] || !IsSpace(r[0])
    ensures r == [] <==> forall i | 0 <= i < |s| :: IsSpace(s[i])
  {
    if s == [] || !IsSpace(s[0]) then s else SkipSpaces(s[1..])
  }

  datatype Number = Number(value: nat) | NotANumber | TooLarge

  /** `std::stoul`, with an `unsigned long` of 64 bits, on a text without a minus sign: white space, at most one plus, then digits;
      whatever follows the digits is ignored. */
  function Stoul(s: string): Number {
    var t := SkipSpaces(s);
    var d := Digits(if t != [] && t[0] == '+' then t[1..] else t);
    if d == [] then NotANumber
    else if Value(d) < TWO64 then Number(Value(d))
    else TooLarge
  }

  /** Reading undoes printing, whatever stands after the number. */
  lemma StoulOfDecimal(n: nat, rest: string)
    requires rest == [] || !IsDigit(rest[0])
    ensures Stoul(Decimal(n) + rest) == if n < TWO64 then Number(n) else TooLarge
  {
    var s := Decimal(n) + rest;
    assert s[0] == Decimal(n)[0] && IsDigit(s[0]);
    assert SkipSpaces(s) == s;
    DigitsAtFront(Decimal(n), rest);
    ValueOfDecimal(n);
  }
}
