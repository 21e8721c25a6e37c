/** Decimal numbers as the standard library prints and reads them. */
module Decimal {

  predicate IsDigit(c: char) {
    '0' <= c <= '9'
  }

  function DigitChar(d: nat): (c: char)
    requires d < 10
    ensures IsDigit(c) && DigitValue(c) == d
  {
    (d + '0' as int) as char
  }

  function DigitValue(c: char): nat
    requires IsDigit(c)
  {
    c as int - '0' as int
  }

  /** std::to_string of a non-negative number. */
  function Digits(n: nat): string {
    if n < 10 then [DigitChar(n)] else Digits(n / 10) + [DigitChar(n % 10)]
  }

  function Signed(i: int): string {
    if i < 0 then "-" + Digits(-i) else Digits(i)
  }

  ghost predicate AllDigits(s: string) {
    forall i :: 0 <= i < |s| ==> IsDigit(s[i])
  }

  function Value(s: string): nat
    requires AllDigits(s)
  {
    if s == [] then 0 else Value(s[..|s| - 1]) * 10 + DigitValue(s[|s| - 1])
  }

  lemma {:induction false} DigitsValue(n: nat)
    ensures Digits(n) != [] && AllDigits(Digits(n)) && Value(Digits(n)) == n
  {
    if n < 10 {
      assert Value([DigitChar(n)]) == Value([]) * 10 + n;
    } else {
      DigitsValue(n / 10);
      assert Digits(n)[..|Digits(n)| - 1] == Digits(n / 10);
    }
  }

  /** How many digits s begins with. */
  function LeadingDigits(s: string): (k: nat)
    ensures k <= |s|
    ensures AllDigits(s[..k])
    ensures k < |s| ==> !IsDigit(s[k])
  {
    if s != [] && IsDigit(s[0]) then
      assert s[1..][..LeadingDigits(s[1..])] == s[1..LeadingDigits(s[1..]) + 1];
      1 + LeadingDigits(s[1..])
    else 0
  }

  lemma TakeDrop(d: string, rest: string)
    ensures (d + rest)[..|d|] == d && (d + rest)[|d|..] == rest
    ensures d != [] ==> (d + rest)[0] == d[0]
  {
  }

  /** No digit follows. */
  predicate EndsNumber(rest: string) {
    rest == [] || !IsDigit(rest[0])
  }

  lemma {:induction false} LeadingDigitsOf(d: string, rest: string)
    requires AllDigits(d) && EndsNumber(rest)
    ensures LeadingDigits(d + rest) == |d|
  {
    if d == [] {
      assert d + rest == rest;
    } else {
      assert (d + rest)[1..] == d[1..] + rest;
      LeadingDigitsOf(d[1..], rest);
    }
  }

  /** A printed number followed by something else, as a reader of digits finds it. */
  lemma DigitsThen(n: nat, rest: string)
    requires EndsNumber(rest)
    ensures var d := Digits(n);
            var s := d + rest;
            && d != [] && s != [] && s[0] == d[0] && IsDigit(d[0])
            && LeadingDigits(s) == |d| && s[..|d|] == d && s[|d|..] == rest && Value(s[..|d|]) == n
  {
    hide Digits, Value, LeadingDigits, EndsNumber;
    DigitsValue(n);
    LeadingDigitsOf(Digits(n), rest);
    TakeDrop(Digits(n), rest);
  }

  /** And after a minus sign. */
  lemma DropMinus(s: string)
    ensures ("-" + s)[0] == '-' && ("-" + s)[1..] == s
  {
  }
}
