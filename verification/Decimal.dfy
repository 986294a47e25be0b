/** Printing integers in decimal and parsing them back. */
module Decimal {
  import opened Common

  const INT64_MIN := -0x8000_0000_0000_0000
  const INT64_MAX := 0x7FFF_FFFF_FFFF_FFFF

  const DIGITS := "0123456789"

  function Digits(n: nat): string {
    if n < 10 then [DIGITS[n]] else Digits(n / 10) + [DIGITS[n % 10]]
  }

  function Print(i: int): string {
    if i < 0 then "-" + Digits(-i) else Digits(i)
  }

  function DigitValue(c: char): Option<nat> {
    if '0' <= c <= '9' then Some((c as int) - ('0' as int)) else None
  }

  /** None for the empty string and for any character that is not a digit. */
  function ParseDigits(s: string): Option<nat> {
    if s == [] then None
    else
      var last := DigitValue(s[|s| - 1]);
      if |s| == 1 || last == None then last
      else
        var rest := ParseDigits(s[..|s| - 1]);
        if rest == None then None else Some(10 * rest.value + last.value)
  }

  /** An optional sign, then digits; out of the 64-bit range is an error. */
  function Atoi(s: string): Option<int> {
    if s == [] then None
    else
      var signed := s[0] == '-' || s[0] == '+';
      var magnitude := ParseDigits(if signed then s[1..] else s);
      if magnitude == None then None
      else
        var i := if s[0] == '-' then 0 - magnitude.value else magnitude.value;
        if INT64_MIN <= i <= INT64_MAX then Some(i) else None
  }

  lemma DigitRoundTrip(d: nat)
    requires d < 10
    ensures DigitValue(DIGITS[d]) == Some(d)
  {
    assert DIGITS[0] == '0' && DIGITS[1] == '1' && DIGITS[2] == '2' && DIGITS[3] == '3' && DIGITS[4] == '4';
    assert DIGITS[5] == '5' && DIGITS[6] == '6' && DIGITS[7] == '7' && DIGITS[8] == '8' && DIGITS[9] == '9';
  }

  lemma {:induction false} DigitsRoundTrip(n: nat)
    ensures ParseDigits(Digits(n)) == Some(n)
    ensures Digits(n) != [] && DigitValue(Digits(n)[0]) != None
  {
    if n < 10 {
      DigitRoundTrip(n);
    } else {
      DigitsRoundTrip(n / 10);
      DigitRoundTrip(n % 10);
      assert Digits(n)[..|Digits(n)| - 1] == Digits(n / 10);
    }
  }

  lemma {:induction false} DigitsOnly(n: nat)
    ensures forall c :: c in Digits(n) ==> DigitValue(c) != None
  {
    if n < 10 {
      DigitRoundTrip(n);
    } else {
      DigitsOnly(n / 10);
      DigitRoundTrip(n % 10);
    }
  }

  /** Printed integers are told apart by their text, which holds only digits and a minus sign. */
  lemma PrintIsInjective(i: int, j: int)
    ensures Print(i) == Print(j) ==> i == j
    ensures forall c :: c in Print(i) ==> c == '-' || DigitValue(c) != None
  {
    var m, n := if i < 0 then 0 - i else i, if j < 0 then 0 - j else j;
    DigitsRoundTrip(m);
    DigitsRoundTrip(n);
    DigitsOnly(m);
    assert ("-" + Digits(m))[1..] == Digits(m) && ("-" + Digits(n))[1..] == Digits(n);
    assert ("-" + Digits(m))[0] == '-' && ("-" + Digits(n))[0] == '-';
  }

  lemma AtoiOfDigits(digits: string, n: nat)
    requires digits != [] && DigitValue(digits[0]) != None && ParseDigits(digits) == Some(n)
    ensures Atoi(digits) == if n <= INT64_MAX then Some(n) else None
    ensures Atoi("-" + digits) == if 0 - n >= INT64_MIN then Some(0 - n) else None
  {
    var s := "-" + digits;
    assert s[0] == '-' && s[1..] == digits;
  }

  lemma {:induction false} DigitsCanonical(n: nat)
    ensures Digits(n) != [] && (n > 0 ==> Digits(n)[0] != '0')
  {
    assert DIGITS[1] == '1' && DIGITS[2] == '2' && DIGITS[3] == '3' && DIGITS[4] == '4' && DIGITS[5] == '5';
    assert DIGITS[6] == '6' && DIGITS[7] == '7' && DIGITS[8] == '8' && DIGITS[9] == '9';
    if n >= 10 {
      DigitsCanonical(n / 10);
    }
  }

  /** Decimal text has a minus sign exactly for negative numbers, no plus sign and no leading zeros. */
  lemma PrintIsCanonical(i: int)
    ensures Print(i) != [] && (Print(i)[0] == '-' <==> i < 0) && Print(i)[0] != '+'
    ensures i > 0 ==> Print(i)[0] != '0'
    ensures i < 0 ==> |Print(i)| > 1 && Print(i)[1] != '0'
  {
    var n := if i < 0 then 0 - i else i;
    DigitsRoundTrip(n);
    DigitsCanonical(n);
    assert ("-" + Digits(n))[0] == '-' && ("-" + Digits(n))[1] == Digits(n)[0];
  }

  /** Exactly the 64-bit integers survive printing and parsing; any other is an error. */
  lemma AtoiInvertsPrint(i: int)
    ensures Atoi(Print(i)) == if -0x8000_0000_0000_0000 <= i <= 0x7FFF_FFFF_FFFF_FFFF then Some(i) else None
  {
    var n := if i < 0 then 0 - i else i;
    DigitsRoundTrip(n);
    AtoiOfDigits(Digits(n), n);
  }

  /** Text whose last character is not a digit is not a number. */
  lemma NotANumber(s: string)
    requires s != [] && DigitValue(s[|s| - 1]) == None
    ensures Atoi(s) == None
  {
    if |s| > 1 {
      assert s[1..][|s[1..]| - 1] == s[|s| - 1];
    }
  }

  /** Zeros, then the digit `d`. */
  predicate ZerosThen(s: string, d: char) {
    s != [] && s[|s| - 1] == d && forall i :: 0 <= i < |s| - 1 ==> s[i] == '0'
  }

  lemma {:induction false} ParseSmall(s: string, d: nat)
    requires d < 10
    ensures ParseDigits(s) == Some(d) <==> ZerosThen(s, DIGITS[d])
  {
    DigitRoundTrip(d);
    if |s| > 1 {
      var most := s[..|s| - 1];
      ParseSmall(most, 0);
      DigitRoundTrip(0);
      assert DIGITS[0] == '0';
      assert ZerosThen(most, '0') <==> forall i :: 0 <= i < |s| - 1 ==> s[i] == '0';
      DigitIs(s[|s| - 1], d);
    } else if |s| == 1 {
      DigitIs(s[0], d);
    }
  }

  lemma DigitIs(c: char, d: nat)
    requires d < 10
    ensures DigitValue(c) == Some(d) <==> c == DIGITS[d]
  {
    DigitRoundTrip(d);
  }

  /** The texts of a number of one digit: leading zeros, a plus sign, and a minus sign before zero. */
  lemma AtoiSmall(s: string, d: nat)
    requires d < 10
    ensures Atoi(s) == Some(d) <==>
              && s != []
              && (|| ZerosThen(s, DIGITS[d])
                  || (s[0] == '+' && ZerosThen(s[1..], DIGITS[d]))
                  || (s[0] == '-' && d == 0 && ZerosThen(s[1..], '0')))
  {
    if s != [] {
      ParseSmall(s, d);
      ParseSmall(s[1..], d);
      DigitRoundTrip(d);
      assert DIGITS[0] == '0';
      assert ZerosThen(s, DIGITS[d]) ==> DigitValue(s[0]) != None;
    }
  }
}
