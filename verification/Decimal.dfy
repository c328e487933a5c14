/** Decimal numbers as strconv and fmt print them. */
module Decimal {
  import opened Text

  function Digit(d: nat): char
    requires d < 10
  {
    '0' + d as char
  }

  predicate IsDigit(c: char) {
    '0' <= c <= '9'
  }

  predicate AllDigits(s: string) {
    forall i :: 0 <= i < |s| ==> IsDigit(s[i])
  }

  /** strconv.FormatUint(n, 10). */
  function FormatNat(n: nat): (s: string)
    ensures s != "" && AllDigits(s)
  {
    if n < 10 then [Digit(n)] else FormatNat(n / 10) + [Digit(n % 10)]
  }

  /** The %d verb. */
  function FormatInt(n: int): string {
    if n < 0 then "-" + FormatNat(-n) else FormatNat(n)
  }

  function ParseNat(s: string): nat
    requires AllDigits(s)
  {
    if s == "" then 0
    else
      var last := s[|s| - 1];
      assert IsDigit(last);
      10 * ParseNat(s[..|s| - 1]) + (last as int - '0' as int)
  }

  predicate IsInt(s: string) {
    if s != "" && s[0] == '-' then |s| > 1 && AllDigits(s[1..]) else s != "" && AllDigits(s)
  }

  function ParseInt(s: string): (n: int)
    requires IsInt(s)
  {
    if s[0] == '-' then 0 - ParseNat(s[1..]) else ParseNat(s)
  }

  lemma {:induction false} ParseFormatNat(n: nat)
    ensures ParseNat(FormatNat(n)) == n
  {
    if n >= 10 {
      var s := FormatNat(n);
      assert s[..|s| - 1] == FormatNat(n / 10);
      ParseFormatNat(n / 10);
    } else {
      assert FormatNat(n)[..0] == "";
    }
  }

  lemma ParseFormatInt(n: int)
    ensures IsInt(FormatInt(n)) && ParseInt(FormatInt(n)) == n
  {
    if n < 0 {
      assert FormatInt(n)[1..] == FormatNat(-n);
      ParseFormatNat(-n);
    } else {
      ParseFormatNat(n);
    }
  }

  lemma FormatNatInjective(m: nat, n: nat)
    requires FormatNat(m) == FormatNat(n)
    ensures m == n
  {
    ParseFormatNat(m);
    ParseFormatNat(n);
  }
}
