/** The larger of two reals, and comparing quotients. */
module Fractions {

  function Max(a: real, b: real): real {
    if b > a then b else a
  }

  lemma OrderCancels(x: real, y: real, k: real)
    requires k > 0.0 && x * k <= y * k
    ensures x <= y
  {
  }

  lemma CrossDivide(a: real, b: real, c: real, d: real)
    requires b > 0.0 && d > 0.0 && a * d <= c * b
    ensures a / b <= c / d
  {
    var x, y, k := a / b, c / d, b * d;
    assert x * k == (x * b) * d == a * d;
    assert y * k == (y * d) * b == c * b;
    OrderCancels(x, y, k);
  }

  lemma DivideComplement(n: real, m: real, d: real)
    requires d > 0.0 && n + m == d
    ensures m / d == 1.0 - n / d
  {
    CrossDivide(m, d, d - n, d);
    assert (d - n) / d == d / d - n / d;
  }
}
