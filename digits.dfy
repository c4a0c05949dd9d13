/** Decimal text: `str(n)`, the zero-padded fields of strftime, and reading
    a run of ASCII digits back as a number. */
module Digits {

  predicate IsDigit(c: char) {
    '0' <= c <= '9'
  }

  predicate AllDigits(s: string) {
    forall i :: 0 <= i < |s| ==> IsDigit(s[i])
  }

  function DigitValue(c: char): (d: nat)
    requires IsDigit(c)
    ensures d < 10
  {
    (c as int) - ('0' as int)
  }

  function DigitChar(d: nat): (c: char)
    requires d < 10
    ensures IsDigit(c) && DigitValue(c) == d
  {
    (('0' as int) + d) as char
  }

  function Pow10(w: nat): (p: nat)
    ensures p >= 1
  {
    if w == 0 then 1 else 10 * Pow10(w - 1)
  }

  /** The number a run of digits denotes, most significant digit first. */
  function DigitsValue(s: string): (v: nat)
    requires AllDigits(s)
    ensures v < Pow10(|s|)
  {
    if s == [] then 0 else DigitsValue(s[..|s| - 1]) * 10 + DigitValue(s[|s| - 1])
  }

  /** `str(n)` for a natural number: decimal digits without leading zeros. */
  function NatText(n: nat): (s: string)
    decreases n
  {
    (if n < 10 then "" else NatText(n / 10)) + [DigitChar(n % 10)]
  }

  /** The last `w` decimal digits of `n`, zero-padded (strftime's %m, %d,
      %H, %M, %S with w = 2 and %Y with w = 4). */
  function Padded(n: nat, w: nat): (s: string)
    ensures |s| == w
  {
    if w == 0 then "" else Padded(n / 10, w - 1) + [DigitChar(n % 10)]
  }

  lemma {:induction false} NatTextDigits(n: nat)
    ensures |NatText(n)| > 0 && AllDigits(NatText(n))
    ensures n > 0 ==> NatText(n)[0] != '0'
    decreases n
  {
    if n >= 10 {
      NatTextDigits(n / 10);
    }
  }

  /** Reading `str(n)` back gives `n`. */
  lemma {:induction false} NatTextRoundTrip(n: nat)
    ensures AllDigits(NatText(n)) && DigitsValue(NatText(n)) == n
    decreases n
  {
    NatTextDigits(n);
    var s := NatText(n);
    var prefix := if n < 10 then "" else NatText(n / 10);
    assert s == prefix + [DigitChar(n % 10)];
    assert s[..|s| - 1] == prefix;
    if n >= 10 {
      NatTextRoundTrip(n / 10);
    }
  }

  /** Different numbers have different decimal text. */
  lemma NatTextInjective(m: nat, n: nat)
    requires NatText(m) == NatText(n)
    ensures m == n
  {
    NatTextRoundTrip(m);
    NatTextRoundTrip(n);
  }

  lemma {:induction false} PaddedDigits(n: nat, w: nat)
    ensures AllDigits(Padded(n, w))
  {
    if w > 0 {
      PaddedDigits(n / 10, w - 1);
    }
  }

  /** Reading a zero-padded field back gives the number, when it fits. */
  lemma {:induction false} PaddedRoundTrip(n: nat, w: nat)
    requires n < Pow10(w)
    ensures AllDigits(Padded(n, w)) && DigitsValue(Padded(n, w)) == n
  {
    PaddedDigits(n, w);
    if w > 0 {
      var s := Padded(n, w);
      assert s[..|s| - 1] == Padded(n / 10, w - 1);
      PaddedRoundTrip(n / 10, w - 1);
    }
  }

  /** Two numbers that fit the width have equal padded fields only if equal. */
  lemma PaddedInjective(m: nat, n: nat, w: nat)
    requires m < Pow10(w) && n < Pow10(w)
    requires Padded(m, w) == Padded(n, w)
    ensures m == n
  {
    PaddedRoundTrip(m, w);
    PaddedRoundTrip(n, w);
  }
}
