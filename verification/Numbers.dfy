/** Quotients, remainders and decimal texts that several modules need. */
module Numbers {

  lemma NextMultiple(a: int, b: int, d: int)
    requires d > 0
    ensures a < b ==> a * d + d <= b * d
  {
    if a < b {
      var k := b - a - 1;
      assert k * d >= 0;
      assert b * d == (a + 1 + k) * d == a * d + d + k * d;
    }
  }

  lemma QuotientIs(v: int, d: int, q: int, r: int)
    requires d > 0 && v == q * d + r && 0 <= r < d
    ensures v / d == q && v % d == r
  {
    var p := v / d;
    assert v == p * d + v % d;
    NextMultiple(p, q, d);
    NextMultiple(q, p, d);
  }

  function Decimal(n: nat): string {
    if n < 10 then ["0123456789"[n]] else Decimal(n / 10) + ["0123456789"[n % 10]]
  }

  lemma {:induction false} DecimalDigits(n: nat)
    ensures Decimal(n) != "" && forall i :: 0 <= i < |Decimal(n)| ==> '0' <= Decimal(n)[i] <= '9'
    decreases n
  {
    if n >= 10 {
      DecimalDigits(n / 10);
    }
  }

  lemma DigitIs(m: nat, n: nat)
    requires m < 10 && n < 10 && "0123456789"[m] == "0123456789"[n]
    ensures m == n
  {
  }

  lemma {:induction false} DecimalInjective(m: nat, n: nat)
    requires Decimal(m) == Decimal(n)
    ensures m == n
    decreases m
  {
    var s, t := Decimal(m), Decimal(n);
    if m >= 10 {
      DecimalDigits(m / 10);
    }
    if n >= 10 {
      DecimalDigits(n / 10);
    }
    assert |s| == 1 <==> m < 10;
    assert |t| == 1 <==> n < 10;
    assert s[|s| - 1] == "0123456789"[m % 10] && t[|t| - 1] == "0123456789"[n % 10];
    DigitIs(m % 10, n % 10);
    if m >= 10 {
      assert s[..|s| - 1] == Decimal(m / 10) && t[..|t| - 1] == Decimal(n / 10);
      DecimalInjective(m / 10, n / 10);
    }
  }
}
