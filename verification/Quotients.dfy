/**
 Division by a variable, from multiplication up.
 */
module Quotients {

  lemma {:induction false} MulMono(d: nat, x: nat, y: nat)
    ensures x <= y ==> d * x <= d * y
    decreases y
  {
    if x < y {
      MulMono(d, x, y - 1);
      assert d * y == d * (y - 1) + d;
    }
  }

  lemma MulStep(d: nat, x: nat, y: nat)
    ensures x < y ==> d * x + d <= d * y
  {
    MulMono(d, x + 1, y);
    assert d * (x + 1) == d * x + d;
  }

  lemma Rest(a: nat, d: nat)
    requires d >= 1
    ensures d * (a / d) <= a < d * (a / d) + d && a % d == a - d * (a / d)
  {
  }

  lemma Quotient(a: nat, d: nat, q: nat)
    requires d >= 1 && d * q <= a < d * q + d
    ensures a / d == q && a % d == a - d * q
  {
    Rest(a, d);
    MulStep(d, a / d, q);
    MulStep(d, q, a / d);
  }

  /** Taking one divisor away. */
  lemma OneLess(a: nat, d: nat)
    requires d >= 1 && a >= d
    ensures a / d >= 1 && (a - d) / d == a / d - 1 && (a - d) % d == a % d
  {
    Rest(a, d);
    MulStep(d, a / d, 1);
    assert d * (a / d - 1) == d * (a / d) - d;
    Quotient(a - d, d, a / d - 1);
  }

  lemma DivDiv(a: nat, b: nat, c: nat)
    requires b >= 1 && c >= 1
    ensures b * c >= 1 && a / b / c == a / (b * c)
  {
    var q := a / b;
    var u := q / c;
    Rest(a, b);
    Rest(q, c);
    DivBound(a, b, c, q, u);
    MulMono(b, 1, c);
    Quotient(a, b * c, u);
  }

  lemma DivBound(a: nat, b: nat, c: nat, q: nat, u: nat)
    requires b * q <= a < b * q + b && c * u <= q < c * u + c
    ensures (b * c) * u <= a < (b * c) * u + b * c
  {
    MulMono(b, c * u, q);
    MulStep(b, q, c * u + c);
    assert b * (c * u) == (b * c) * u;
    assert b * (c * u + c) == b * (c * u) + b * c;
  }

  lemma Shrinks(n: nat, d: nat)
    requires d >= 2
    ensures n >= d ==> 1 <= n / d < n
  {
    if n >= d {
      OneLess(n, d);
      Rest(n, d);
      MulMono(n / d, 2, d);
      assert d * (n / d) == (n / d) * d && (n / d) * 2 == n / d + n / d;
    }
  }
}
