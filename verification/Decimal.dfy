/** Decimal numerals, as std::to_string writes and from_chars reads them. */
module Decimal {

  predicate IsDigit(c: char) {
    '0' <= c <= '9'
  }

  predicate AllDigits(s: string) {
    forall i :: 0 <= i < |s| ==> IsDigit(s[i])
  }

  function Value(c: char): (v: nat)
    requires IsDigit(c)
    ensures v < 10
  {
    (c - '0') as nat
  }

  function Numeral(v: nat): (c: char)
    requires v < 10
    ensures IsDigit(c) && Value(c) == v
  {
    '0' + v as char
  }

  /** The number a digit string denotes; leading zeros are allowed. */
  function Number(s: string): nat
    requires AllDigits(s)
  {
    if s == "" then 0 else 10 * Number(s[..|s| - 1]) + Value(s[|s| - 1])
  }

  lemma NumberOfNothing()
    ensures AllDigits("") && Number("") == 0
  {
  }

  /** One more digit behind a number. */
  lemma NumberSnoc(s: string, c: char)
    requires AllDigits(s) && IsDigit(c)
    ensures AllDigits(s + [c]) && Number(s + [c]) == 10 * Number(s) + Value(c)
  {
    var t := s + [c];
    assert t[..|t| - 1] == s;
    forall i | 0 <= i < |t|
      ensures IsDigit(t[i])
    {
      if i < |s| {
        assert t[i] == s[i];
      }
    }
  }

  function Digits(n: nat): string {
    if n < 10 then [Numeral(n)] else Digits(n / 10) + [Numeral(n % 10)]
  }

  lemma {:induction false} DigitsRoundTrip(n: nat)
    ensures Digits(n) != "" && AllDigits(Digits(n)) && Number(Digits(n)) == n
  {
    if n >= 10 {
      DigitsRoundTrip(n / 10);
      var d := Digits(n / 10);
      assert (d + [Numeral(n % 10)])[..|d|] == d;
    } else {
      assert [Numeral(n)][..0] == "";
    }
  }

  function PowerOfTen(k: nat): nat {
    if k == 0 then 1 else 10 * PowerOfTen(k - 1)
  }

  /** A number below 10^k needs at most k digits, and one for zero. */
  lemma {:induction false} DigitsShort(n: nat, k: nat)
    requires n < PowerOfTen(k) && k > 0
    ensures |Digits(n)| <= k
  {
    if n >= 10 {
      DigitsShort(n / 10, k - 1);
    }
  }
}
