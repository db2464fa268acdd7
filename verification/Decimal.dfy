/** Reading and printing unsigned decimal numbers: strconv.Atoi on a run of digits, and fmt's
    zero-padded verbs for numbers that fit their width. */
module Decimal {

  predicate IsDigit(c: char) {
    '0' <= c <= '9'
  }

  predicate AllDigits(s: string) {
    forall i | 0 <= i < |s| :: IsDigit(s[i])
  }

  function DigitChar(n: nat): (c: char)
    requires n < 10
    ensures IsDigit(c)
  {
    (n + '0' as int) as char
  }

  function DigitValue(c: char): (n: nat)
    requires IsDigit(c)
    ensures n < 10
  {
    c as int - '0' as int
  }

  function Pow10(k: nat): (p: nat)
    ensures p > 0
  {
    if k == 0 then 1 else 10 * Pow10(k - 1)
  }

  function Atoi(s: string): nat
    requires AllDigits(s)
  {
    if s == "" then 0 else 10 * Atoi(s[..|s| - 1]) + DigitValue(s[|s| - 1])
  }

  function Padded(n: nat, width: nat): (s: string)
    ensures |s| == width && AllDigits(s)
  {
    if width == 0 then "" else Padded(n / 10, width - 1) + [DigitChar(n % 10)]
  }

  lemma {:induction false} AtoiPadded(n: nat, width: nat)
    requires n < Pow10(width)
    ensures Atoi(Padded(n, width)) == n
  {
    if width != 0 {
      var head := Padded(n / 10, width - 1);
      AtoiPadded(n / 10, width - 1);
      AtoiOneMore(head, n % 10);
      assert Padded(n, width) == head + [DigitChar(n % 10)];
    }
  }

  lemma AtoiOneMore(head: string, d: nat)
    requires AllDigits(head) && d < 10
    ensures Atoi(head + [DigitChar(d)]) == 10 * Atoi(head) + d
  {
    assert (head + [DigitChar(d)])[..|head|] == head;
  }

  lemma {:induction false} PaddedAtoi(s: string)
    requires AllDigits(s)
    ensures Atoi(s) < Pow10(|s|)
    ensures Padded(Atoi(s), |s|) == s
  {
    if s != "" {
      PaddedAtoi(s[..|s| - 1]);
      assert s == s[..|s| - 1] + [s[|s| - 1]];
    }
  }

  lemma {:induction false} Pow10Grows(j: nat, k: nat)
    requires j <= k
    ensures Pow10(j) <= Pow10(k)
    decreases k
  {
    if j < k {
      Pow10Grows(j, k - 1);
    }
  }
}
