/** Division and multiplication of reals, in the few shapes the analyzer needs. */
module RealFacts {

  lemma MulPositive(x: real, y: real)
    requires 0.0 < x && 0.0 < y
    ensures 0.0 < x * y
  {
  }

  lemma MulLess(x: real, y: real, b: real)
    requires x < y && 0.0 < b
    ensures x * b < y * b
  {
    MulPositive(y - x, b);
    assert y * b - x * b == (y - x) * b;
  }

  lemma MulOrder(x: real, y: real, b: real)
    requires 0.0 < b
    ensures (x <= y <==> x * b <= y * b) && (x == y <==> x * b == y * b)
  {
    if x < y { MulLess(x, y, b); }
    if y < x { MulLess(y, x, b); }
  }

  lemma DivTimes(x: real, b: real)
    requires 0.0 < b
    ensures (x / b) * b == x
  {
  }

  lemma DivOrder(x: real, y: real, b: real)
    requires 0.0 < b
    ensures (x <= y <==> x / b <= y / b) && (x == y <==> x / b == y / b)
  {
    DivTimes(x, b);
    DivTimes(y, b);
    MulOrder(x / b, y / b, b);
  }

  /** Where a quotient lies relative to a number. */
  lemma DivBound(x: real, b: real, c: real)
    requires 0.0 < b
    ensures (x / b <= c <==> x <= c * b) && (x / b == c <==> x == c * b)
  {
    DivTimes(x, b);
    MulOrder(x / b, c, b);
  }

  lemma DivComplement(x: real, b: real)
    requires 0.0 < b
    ensures 1.0 - x / b == (b - x) / b
  {
    DivTimes(x, b);
    DivTimes(b - x, b);
    var q := x / b;
    assert (1.0 - q) * b == b - q * b == b - x;
    DivBound(b - x, b, 1.0 - q);
  }
}
