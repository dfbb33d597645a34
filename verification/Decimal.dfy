/** Runs of decimal digits: how they are found in a string, read as a number, and printed. */
module Decimal {

  predicate IsDigit(c: char) { '0' <= c <= '9' }

  predicate AllDigits(s: string) { forall i :: 0 <= i < |s| ==> IsDigit(s[i]) }

  /** Length of the longest prefix of digits. */
  function DigitPrefix(s: string): (n: nat)
    ensures n <= |s|
  {
    if s != "" && IsDigit(s[0]) then 1 + DigitPrefix(s[1..]) else 0
  }

  lemma {:induction false} DigitPrefixIsExact(s: string)
    ensures var n := DigitPrefix(s);
            AllDigits(s[..n]) && (n < |s| ==> !IsDigit(s[n]))
  {
    if s != "" && IsDigit(s[0]) {
      DigitPrefixIsExact(s[1..]);
      var n := DigitPrefix(s);
      forall i | 0 <= i < n ensures IsDigit(s[..n][i]) {
        if i > 0 { assert s[..n][i] == s[1..][..n - 1][i - 1]; }
      }
    }
  }

  function DigitValue(c: char): nat { if IsDigit(c) then c as int - '0' as int else 0 }

  /** `Number` of a string of digits. */
  function Number(s: string): nat {
    if s == "" then 0 else Number(s[..|s| - 1]) * 10 + DigitValue(s[|s| - 1])
  }

  function DigitChar(d: nat): (c: char)
    requires d < 10
    ensures IsDigit(c) && DigitValue(c) == d
  {
    ('0' as int + d) as char
  }

  /** `String` of a natural number. */
  function Digits(n: nat): (s: string)
    ensures s != "" && IsDigit(s[0])
    ensures n == 0 <==> s[0] == '0'
    ensures n == 0 ==> |s| == 1
  {
    if n < 10 then [DigitChar(n)] else Digits(n / 10) + [DigitChar(n % 10)]
  }

  lemma {:induction false} DigitsAreDigits(n: nat)
    ensures AllDigits(Digits(n))
  {
    if n >= 10 { DigitsAreDigits(n / 10); }
  }

  lemma {:induction false} NumberOfDigits(n: nat)
    ensures Number(Digits(n)) == n
  {
    if n >= 10 {
      NumberOfDigits(n / 10);
      assert (Digits(n / 10) + [DigitChar(n % 10)])[..|Digits(n / 10)|] == Digits(n / 10);
    } else {
      assert Number([DigitChar(n)][..0]) == 0;
    }
  }

  lemma {:induction false} DigitPrefixConcat(s: string, rest: string)
    requires AllDigits(s)
    requires rest != "" ==> !IsDigit(rest[0])
    ensures DigitPrefix(s + rest) == |s|
  {
    if s == "" {
      assert s + rest == rest;
    } else {
      assert (s + rest)[1..] == s[1..] + rest;
      DigitPrefixConcat(s[1..], rest);
    }
  }
}
