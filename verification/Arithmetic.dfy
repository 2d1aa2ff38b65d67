/** Small facts about division that several modules need. */
module Arithmetic {

  function Min(a: nat, b: nat): nat {
    if a < b then a else b
  }

  function Pow(b: nat, e: nat): nat {
    if e == 0 then 1 else b * Pow(b, e - 1)
  }

  lemma {:induction false} PowPositive(b: nat, e: nat)
    requires b > 0
    ensures Pow(b, e) > 0
  {
    if e > 0 {
      PowPositive(b, e - 1);
    }
  }

  lemma MultiplesAreFarApart(p: int, d: int)
    requires p > 0
    ensures d >= 1 ==> p * d >= p
    ensures d <= -1 ==> p * d <= -p
  {
  }

  lemma TimesOneMore(a: nat, b: nat)
    ensures a * (b + 1) == a * b + a
  {
  }

  lemma NoProduct(a: nat, b: nat)
    requires a > 0
    ensures a * b == 0 <==> b == 0
  {
  }

  /** Quotient and remainder are determined by how a number splits. */
  lemma DivisionIs(x: nat, d: nat, q: nat, r: nat)
    requires d > 0 && x == d * q + r && r < d
    ensures x / d == q && x % d == r
  {
    MultiplesAreFarApart(d, x / d - q);
    assert d * (x / d - q) == r - x % d;
  }

  /** The digit of v in base 256 that k others follow. */
  function DigitAt(v: nat, k: nat): (d: nat)
    ensures d < 256
  {
    PowPositive(256, k);
    v / Pow(256, k) % 256
  }

  lemma DivTwice(v: nat, b: nat)
    requires b > 0
    ensures v / 256 / b == v / (256 * b)
  {
    var q, r := v / 256, v % 256;
    var s, t := q / b, q % b;
    assert v == 256 * (b * s + t) + r == (256 * b) * s + (256 * t + r);
    assert 256 * t + r < 256 * b;
    DivisionIs(v, 256 * b, s, 256 * t + r);
  }
}
