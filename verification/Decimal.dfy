/** Decimal text of non-negative integers, with and without zero padding.

    Reading the text back gives the number, so the text determines it. */
module Decimal {

  function Digit(d: nat): char
    requires d < 10
  {
    ('0' as int + d) as char
  }

  /** The text Rust's `{}` prints for an unsigned integer. */
  function Digits(n: nat): (s: string)
    ensures |s| >= 1
    ensures forall c | c in s :: '0' <= c <= '9'
  {
    if n < 10 then [Digit(n)] else Digits(n / 10) + [Digit(n % 10)]
  }

  /** The text Rust's `{:0>width$}` prints. */
  function Padded(n: nat, width: nat): string {
    var s := Digits(n);
    if |s| >= width then s else seq(width - |s|, _ => '0') + s
  }

  /** Reads decimal text back; characters other than digits read as zero. */
  function ValueOf(s: string): nat {
    if s == [] then 0
    else
      var c := s[|s| - 1];
      10 * ValueOf(s[..|s| - 1]) + (if '0' <= c <= '9' then c as int - '0' as int else 0)
  }

  const NUMERALS: string := "0123456789"

  /** Reading is positional, and the digits are the usual ones. */
  lemma ReadsPositionally(s: string, d: nat)
    requires d < 10
    ensures ValueOf("") == 0 && ValueOf(s + [NUMERALS[d]]) == 10 * ValueOf(s) + d
  {
    assert (s + [NUMERALS[d]])[..|s|] == s;
    assert NUMERALS[d] as int == '0' as int + d;
  }

  lemma {:induction false} ValueOfDigits(n: nat)
    ensures ValueOf(Digits(n)) == n
  {
    var s := Digits(n);
    if n >= 10 {
      ValueOfDigits(n / 10);
      assert s[..|s| - 1] == Digits(n / 10);
    }
  }

  /** Zero alone begins with a zero. */
  lemma {:induction false} DigitsPlain(n: nat)
    ensures Digits(n)[0] == '0' <==> n == 0
    ensures n == 0 ==> |Digits(n)| == 1
  {
    if n >= 10 {
      DigitsPlain(n / 10);
    }
  }

  /** Digits without a zero in front are the digits of their value. */
  lemma {:induction false} DigitsOfValue(s: string)
    requires s != "" && (s[0] == '0' ==> |s| == 1) && forall i | 0 <= i < |s| :: '0' <= s[i] <= '9'
    ensures Digits(ValueOf(s)) == s
    ensures ValueOf(s) > 0 <==> s[0] != '0'
  {
    var t, c := s[..|s| - 1], s[|s| - 1];
    var d := c as int - '0' as int;
    assert s == t + [c];
    if t == "" {
      assert ValueOf(t) == 0 && ValueOf(s) == d;
    } else {
      assert t[0] == s[0];
      DigitsOfValue(t);
      assert ValueOf(s) == 10 * ValueOf(t) + d;
      assert ValueOf(s) / 10 == ValueOf(t) && ValueOf(s) % 10 == d;
    }
  }

  lemma {:induction false} ValueOfZeros(k: nat, s: string)
    ensures ValueOf(seq(k, _ => '0') + s) == ValueOf(s)
  {
    var z := seq(k, _ => '0');
    if s == [] {
      assert z + s == z;
      if k > 0 {
        ValueOfZeros(k - 1, []);
        assert z[..k - 1] == seq(k - 1, _ => '0') + [];
      }
    } else {
      ValueOfZeros(k, s[..|s| - 1]);
      assert (z + s)[..|z + s| - 1] == z + s[..|s| - 1];
    }
  }

  lemma ValueOfPadded(n: nat, width: nat)
    ensures ValueOf(Padded(n, width)) == n
  {
    ValueOfDigits(n);
    if |Digits(n)| < width {
      ValueOfZeros(width - |Digits(n)|, Digits(n));
    }
  }

  function Pow10(k: nat): (p: nat)
    ensures p >= 1
  {
    if k == 0 then 1 else 10 * Pow10(k - 1)
  }

  lemma {:induction false} DigitsLength(n: nat, k: nat)
    requires k >= 1
    ensures |Digits(n)| <= k <==> n < Pow10(k)
  {
    if n >= 10 {
      if k > 1 {
        DigitsLength(n / 10, k - 1);
      } else {
        assert |Digits(n / 10)| >= 1;
        assert Pow10(1) == 10 * Pow10(0);
      }
    } else {
      assert Pow10(k) == 10 * Pow10(k - 1);
    }
  }
}
