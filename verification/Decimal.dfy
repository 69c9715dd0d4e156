/** `intToStr` of internal/inventory/ingress.go: a decimal printer over 64-bit integers. */
module Decimal {
  import opened Kube

  predicate IsDigit(c: char) { '0' <= c <= '9' }

  predicate AllDigits(s: string) { forall i | 0 <= i < |s| :: IsDigit(s[i]) }

  function DigitChar(d: nat): char
    requires d < 10
  {
    '0' + d as char
  }

  /** The digits of a positive number, most significant first; nothing for zero. */
  function Digits(n: nat): string {
    if n == 0 then "" else Digits(n / 10) + [DigitChar(n % 10)]
  }

  /** What `intToStr` prints. Negation wraps at the minimum, which leaves a lone sign. */
  function Printed(n: int64): string {
    if n == 0 then "0"
    else if n == INT64_MIN then "-"
    else if n < 0 then "-" + Digits(-n)
    else Digits(n)
  }

  /** Two's complement negation on 64 bits. */
  function Negate(n: int64): int64 {
    if n == INT64_MIN then INT64_MIN else -n
  }

  method IntToStr(number: int64) returns (buf: string)
    ensures buf == Printed(number)
  {
    if number == 0 {
      return "0";
    }
    buf := "";
    var n := number;
    var neg := n < 0;
    if neg {
      n := Negate(n);
    }
    ghost var start := n;
    while n > 0
      invariant start >= 0 ==> 0 <= n
      invariant start >= 0 ==> Digits(start) == Digits(n) + buf
      invariant start < 0 ==> n == start && buf == ""
    {
      assert Digits(n) + buf == Digits(n / 10) + ([DigitChar(n % 10)] + buf);
      buf := [DigitChar(n % 10)] + buf;
      n := n / 10;
    }
    assert start >= 0 ==> buf == Digits(start);
    if neg {
      buf := "-" + buf;
    }
  }

  /** An independent reader of unsigned decimals, most significant digit first. */
  function Value(s: string): nat
    requires AllDigits(s)
  {
    if s == "" then 0
    else 10 * Value(s[..|s| - 1]) + (s[|s| - 1] as int - '0' as int)
  }

  /** The integer a decimal numeral denotes, if the string is one. */
  function Parse(s: string): Option<int> {
    if s == "" then None
    else if s[0] == '-' then
      if s != "-" && AllDigits(s[1..]) then Some(0 - Value(s[1..])) else None
    else
      if AllDigits(s) then Some(Value(s)) else None
  }

  lemma {:induction false} DigitsReadBack(n: nat)
    ensures AllDigits(Digits(n))
    ensures Value(Digits(n)) == n
    ensures n > 0 ==> Digits(n) != "" && Digits(n)[0] != '0'
  {
    if n > 0 {
      DigitsReadBack(n / 10);
      assert Digits(n)[..|Digits(n)| - 1] == Digits(n / 10);
    }
  }

  /** Printing then reading is the identity exactly above the minimum, where negation does not wrap. */
  lemma PrintParse(n: int64)
    ensures Parse(Printed(n)) == Some(n as int) <==> n != INT64_MIN
  {
    if n > 0 {
      DigitsReadBack(n);
    } else if INT64_MIN < n < 0 {
      DigitsReadBack(-n);
      assert Printed(n)[1..] == Digits(-n);
    } else if n == 0 {
      assert "0"[..0] == "";
    }
  }

  lemma NegativeIsCanonical(n: int64)
    requires INT64_MIN < n < 0
    ensures |Printed(n)| > 1 && Printed(n)[0] == '-' && Printed(n)[1] != '0'
  {
    DigitsReadBack(-n);
    assert Printed(n)[1] == Digits(-n)[0];
  }

  lemma PositiveIsCanonical(n: int64)
    requires n > 0
    ensures |Printed(n)| > 0 && Printed(n)[0] != '0' && Printed(n)[0] != '-'
  {
    DigitsReadBack(n);
    assert IsDigit(Printed(n)[0]);
  }

  /** The numeral is canonical: a sign exactly for negatives and no leading zero except "0" itself. */
  lemma PrintedIsCanonical(n: int64)
    ensures |Printed(n)| > 0
    ensures Printed(n)[0] == '-' <==> n < 0
    ensures n > 0 ==> Printed(n)[0] != '0'
    ensures INT64_MIN < n < 0 ==> |Printed(n)| > 1 && Printed(n)[1] != '0'
  {
    if n > 0 {
      PositiveIsCanonical(n);
    } else if INT64_MIN < n < 0 {
      NegativeIsCanonical(n);
    }
  }

  lemma PrintedInjective(m: int64, n: int64)
    requires Printed(m) == Printed(n)
    ensures m == n
  {
    PrintParse(m);
    PrintParse(n);
    PrintedIsCanonical(m);
    PrintedIsCanonical(n);
  }
}
