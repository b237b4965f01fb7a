/** Decimal notation of natural numbers, as %d and strconv print them. */
module Decimals {

  // The largest value of a Go int on a 64-bit platform: what len() can return.
  const MAX_INT: nat := 0x7FFF_FFFF_FFFF_FFFF

  function Digit(d: nat): char
    requires d < 10
  {
    '0' + d as char
  }

  function Decimal(n: nat): (s: string)
    ensures s != "" && forall i :: 0 <= i < |s| ==> '0' <= s[i] <= '9'
  {
    if n < 10 then [Digit(n)] else Decimal(n / 10) + [Digit(n % 10)]
  }

  function ValueOf(s: string): nat
    requires forall i :: 0 <= i < |s| ==> '0' <= s[i] <= '9'
  {
    if s == "" then 0 else 10 * ValueOf(s[..|s| - 1]) + (s[|s| - 1] as int - '0' as int)
  }

  lemma {:induction false} ValueOfDecimal(n: nat)
    ensures ValueOf(Decimal(n)) == n
  {
    if n < 10 {
      assert Decimal(n)[..0] == "";
    } else {
      ValueOfDecimal(n / 10);
      assert Decimal(n)[..|Decimal(n)| - 1] == Decimal(n / 10);
    }
  }

  lemma DecimalInjective(m: nat, n: nat)
    requires Decimal(m) == Decimal(n)
    ensures m == n
  {
    ValueOfDecimal(m);
    ValueOfDecimal(n);
  }

  lemma {:induction false} DecimalMonotone(m: nat, n: nat)
    requires m <= n
    ensures |Decimal(m)| <= |Decimal(n)|
  {
    if n >= 10 && m >= 10 {
      DecimalMonotone(m / 10, n / 10);
    }
  }

  lemma {:induction false} DecimalShort(n: nat)
    ensures |Decimal(n)| <= 1 + n / 10
  {
    if n >= 10 {
      DecimalShort(n / 10);
    }
  }

  // The first character is '0' only for zero itself.
  lemma {:induction false} DecimalHead(n: nat)
    ensures Decimal(n)[0] == '0' <==> n == 0
  {
    if n >= 10 {
      DecimalHead(n / 10);
    }
  }

  lemma MaxIntDigits(n: nat)
    requires n <= MAX_INT
    ensures |Decimal(n)| <= 19
  {
    DecimalMonotone(n, MAX_INT);
    var a := MAX_INT / 1_000_000;
    var b := a / 1_000_000;
    SixDigitsMore(MAX_INT);
    SixDigitsMore(a);
    SixDigitsMore(b);
  }

  lemma SixDigitsMore(n: nat)
    requires n >= 1_000_000
    ensures |Decimal(n)| == 6 + |Decimal(n / 1_000_000)|
  {
    assert n / 10 / 10 / 10 / 10 / 10 / 10 == n / 1_000_000;
    assert |Decimal(n)| == 1 + |Decimal(n / 10)|;
    assert |Decimal(n / 10)| == 1 + |Decimal(n / 10 / 10)|;
    assert |Decimal(n / 10 / 10)| == 1 + |Decimal(n / 10 / 10 / 10)|;
    assert |Decimal(n / 10 / 10 / 10)| == 1 + |Decimal(n / 10 / 10 / 10 / 10)|;
    assert |Decimal(n / 10 / 10 / 10 / 10)| == 1 + |Decimal(n / 10 / 10 / 10 / 10 / 10)|;
  }
}
