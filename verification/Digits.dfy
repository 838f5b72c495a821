/** Numbers read digit by digit, the most significant one first. */
module Digits {

  function Pow(base: nat, n: nat): nat { if n == 0 then 1 else base * Pow(base, n - 1) }

  lemma {:induction false} PowPositive(base: nat, n: nat)
    requires base > 0
    ensures Pow(base, n) > 0
  {
    if n > 0 { PowPositive(base, n - 1); }
  }

  /** The digit of weight base^k. */
  function DigitAt(value: nat, base: nat, k: nat): nat
    requires base > 0
  {
    PowPositive(base, k);
    value / Pow(base, k) % base
  }

  lemma DigitIsDigit(value: nat, base: nat, k: nat)
    requires base > 0
    ensures DigitAt(value, base, k) < base
  {
    PowPositive(base, k);
  }

  lemma FirstDigit(value: nat, base: nat)
    requires base > 0
    ensures DigitAt(value, base, 0) == value % base
  {
    assert Pow(base, 0) == 1;
  }

  lemma DigitOfZero(base: nat, k: nat)
    requires base > 0
    ensures DigitAt(0, base, k) == 0
  {
    PowPositive(base, k);
    Quotient(0, Pow(base, k), 0, 0);
  }

  /** Dividing by a product is dividing twice. */
  lemma DivideTwice(x: nat, a: nat, b: nat)
    requires a > 0 && b > 0
    ensures a * b > 0 && x / (a * b) == x / a / b
  {
    var y := x / a;
    FromParts(a, b, x % a, y / b, y % b);
    Quotient(x, a * b, y / b, y % b * a + x % a);
  }

  lemma FromParts(a: nat, b: nat, s: nat, q: nat, t: nat)
    requires s < a && t < b
    ensures (q * b + t) * a + s == q * (a * b) + (t * a + s)
    ensures t * a + s < a * b
  {
    Grow(t, b - 1, a);
    assert (b - 1) * a == b * a - a;
  }

  lemma Grow(a: int, b: int, c: int)
    requires a <= b && c >= 0
    ensures a * c <= b * c
  {
  }

  lemma Quotient(x: nat, d: nat, q: nat, r: nat)
    requires d > 0 && x == q * d + r && r < d
    ensures x / d == q
  {
    var p := x / d;
    assert x == p * d + x % d;
    if p < q { Grow(p + 1, q, d); }
    if p > q { Grow(q + 1, p, d); }
  }

  /** A number and its last digit. */
  lemma LastDigit(front: nat, base: nat, digit: nat)
    requires digit < base
    ensures DigitAt(base * front + digit, base, 0) == digit
    ensures (base * front + digit) / base == front
  {
    Quotient(base * front + digit, base, front, digit);
  }

  lemma HigherDigit(value: nat, base: nat, k: nat)
    requires base > 0
    ensures DigitAt(value, base, k + 1) == DigitAt(value / base, base, k)
  {
    PowPositive(base, k);
    DivideTwice(value, base, Pow(base, k));
  }
}
