/** Facts about quotients and remainders that several files need. */
module Arithmetic {

  lemma AtLeastOnce(width: int, d: int)
    requires width > 0 && d >= 1
    ensures width * d >= width
  {
  }

  /** Quotient and remainder are determined. */
  lemma QuotientIs(a: int, width: int, q: int, r: int)
    requires width > 0 && a == width * q + r && 0 <= r < width
    ensures a / width == q && a % width == r
  {
    var d := a / width;
    assert a == width * d + a % width;
    assert width * (q - d) == width * q - width * d;
    if q > d {
      AtLeastOnce(width, q - d);
    } else if q < d {
      assert width * (d - q) == width * d - width * q;
      AtLeastOnce(width, d - q);
    }
  }

  lemma OneMore(a: int, width: int)
    requires width > 0
    ensures (a + width) / width == a / width + 1 && (a + width) % width == a % width
  {
    var q, r := a / width, a % width;
    assert width * (q + 1) == width * q + width;
    QuotientIs(a + width, width, q + 1, r);
  }

  /** A remainder modulo a multiple of b determines the remainder modulo b. */
  lemma RemainderOfRemainder(a: int, b: int, d: int)
    requires b > 0 && d > 0
    ensures b * d > 0 && a % (b * d) % b == a % b
  {
    AtLeastOnce(b, d);
    var n := b * d;
    var q, r := a / n, a % n;
    var c, e := r / b, r % b;
    assert n * q == b * (d * q);
    assert a == b * (d * q + c) + e;
    QuotientIs(a, b, d * q + c, e);
  }
}
