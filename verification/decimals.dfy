/** What the verb %d of Go's fmt package prints, and how to read it back. */
module Decimals {
  const DIGITS := "0123456789"

  function Digits(n: nat): (s: string)
    ensures |s| > 0
    ensures forall i :: 0 <= i < |s| ==> '0' <= s[i] <= '9'
  {
    if n < 10 then [DIGITS[n]] else Digits(n / 10) + [DIGITS[n % 10]]
  }

  function Show(n: int): string {
    if n < 0 then "-" + Digits(-n) else Digits(n)
  }

  /** Reads digits from the left, carrying the value read so far; other characters are skipped. */
  function Value(s: string): nat {
    if |s| == 0 then 0
    else
      var c := s[|s| - 1];
      10 * Value(s[..|s| - 1]) + if '0' <= c <= '9' then (c as int) - ('0' as int) else 0
  }

  /** Reading digits inverts printing them. */
  lemma {:induction false} ValueOfDigits(n: nat)
    ensures Value(Digits(n)) == n
  {
    var s := Digits(n);
    if n >= 10 {
      ValueOfDigits(n / 10);
      assert s[..|s| - 1] == Digits(n / 10);
    } else {
      assert s[..|s| - 1] == "" && Value("") == 0;
    }
    DigitIsItself(n % 10);
  }

  /** No printed number but that of zero begins with a zero. */
  lemma {:induction false} NoLeadingZero(n: nat)
    ensures |Digits(n)| > 1 ==> Digits(n)[0] != '0'
    ensures n > 0 ==> Digits(n)[0] != '0'
  {
    DigitIsItself(n % 10);
    if n >= 10 {
      NoLeadingZero(n / 10);
    }
  }

  lemma DigitIsItself(d: nat)
    requires d < 10
    ensures '0' <= DIGITS[d] <= '9' && (DIGITS[d] as int) - ('0' as int) == d
  {
  }
}
