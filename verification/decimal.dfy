/** Python's `str` of an integer category label, used when the payment
    distribution turns its index into strings (script.py:21), with the
    parser that inverts it. */
module Decimal {
  import opened Wrappers

  predicate IsDigit(c: char) {
    '0' <= c <= '9'
  }

  predicate AllDigits(s: string) {
    forall i :: 0 <= i < |s| ==> IsDigit(s[i])
  }

  function DigitChar(d: nat): (c: char)
    requires d < 10
    ensures IsDigit(c)
  {
    ('0' as int + d) as char
  }

  function DigitValue(c: char): (d: nat)
    requires IsDigit(c)
    ensures d < 10 && DigitChar(d) == c
  {
    c as int - '0' as int
  }

  /** Decimal digits of `n`, most significant first, no leading zero. */
  function ShowNat(n: nat): (s: string)
    ensures |s| > 0 && AllDigits(s)
    decreases n
  {
    if n < 10 then [DigitChar(n)] else ShowNat(n / 10) + [DigitChar(n % 10)]
  }

  /** Value of a string of decimal digits. */
  function ParseNat(s: string): nat
    requires AllDigits(s)
    decreases |s|
  {
    if |s| == 0 then 0 else ParseNat(s[..|s| - 1]) * 10 + DigitValue(s[|s| - 1])
  }

  lemma {:induction false} ParseShowNat(n: nat)
    ensures ParseNat(ShowNat(n)) == n
    decreases n
  {
    var s := ShowNat(n);
    if n >= 10 {
      ParseShowNat(n / 10);
      assert s[..|s| - 1] == ShowNat(n / 10);
    }
  }

  /** `str(i)` for a Python int. */
  function Show(i: int): (s: string)
    ensures |s| > 0
    ensures s[0] == '-' <==> i < 0
  {
    if i < 0 then "-" + ShowNat(-i) else ShowNat(i)
  }

  /** `int(s)` restricted to what `str` produces: an optional minus sign
      followed by at least one digit; anything else is `None`. */
  function Parse(s: string): Option<int>
  {
    if |s| > 1 && s[0] == '-' && AllDigits(s[1..]) then Some(0 - ParseNat(s[1..]) as int)
    else if |s| > 0 && AllDigits(s) then Some(ParseNat(s))
    else None
  }

  lemma ParseShow(i: int)
    ensures Parse(Show(i)) == Some(i)
  {
    if i < 0 {
      assert Show(i)[1..] == ShowNat(-i);
      ParseShowNat(-i);
    } else {
      ParseShowNat(i);
    }
  }

  /** Distinct labels stay distinct once turned into strings, so grouping by
      the string key is grouping by the label. */
  lemma ShowInjective(a: int, b: int)
    ensures Show(a) == Show(b) <==> a == b
  {
    if Show(a) == Show(b) {
      ParseShow(a);
      ParseShow(b);
    }
  }
}
