/**
 * The downloads-to-stars ratio. The script computes it as a float quotient;
 * the model keeps the exact fraction and compares two fractions by
 * cross-multiplication, which is exact for the naturals involved.
 */
module Ratios {
  datatype Ratio = Ratio(num: nat, den: nat)

  /** A ratio the script can produce: its denominator is a non-zero star count. */
  predicate Proper(a: Ratio) { a.den > 0 }

  /** a <= b as rational numbers. */
  predicate AtMost(a: Ratio, b: Ratio) { a.num * b.den <= b.num * a.den }

  /** a == b as rational numbers. */
  predicate Same(a: Ratio, b: Ratio) { a.num * b.den == b.num * a.den }

  /** The real number the fraction stands for: the source's float division without rounding. */
  function Quotient(a: Ratio): real
    requires Proper(a)
  {
    a.num as real / a.den as real
  }

  lemma ScaleReal(x: real, y: real, d: real)
    requires d > 0.0
    ensures x <= y <==> x * d <= y * d
  {
  }

  lemma QuotientTimesDen(a: Ratio)
    requires Proper(a)
    ensures Quotient(a) * a.den as real == a.num as real
  {
  }

  /** Comparing by cross-multiplication orders ratios exactly as their quotients are ordered. */
  lemma AtMostIsQuotientOrder(a: Ratio, b: Ratio)
    requires Proper(a) && Proper(b)
    ensures AtMost(a, b) <==> Quotient(a) <= Quotient(b)
  {
    var x, y := Quotient(a), Quotient(b);
    var d := a.den as real * b.den as real;
    QuotientTimesDen(a);
    QuotientTimesDen(b);
    assert d > 0.0;
    ScaleReal(x, y, d);
    assert x * d == a.num as real * b.den as real;
    assert y * d == b.num as real * a.den as real;
    assert (a.num * b.den) as real == a.num as real * b.den as real;
    assert (b.num * a.den) as real == b.num as real * a.den as real;
  }

  /** Two ratios are Same exactly when their quotients are equal. */
  lemma SameIsQuotientEquality(a: Ratio, b: Ratio)
    requires Proper(a) && Proper(b)
    ensures Same(a, b) <==> Quotient(a) == Quotient(b)
  {
    AtMostIsQuotientOrder(a, b);
    AtMostIsQuotientOrder(b, a);
  }

  lemma MulMonotone(x: nat, y: nat, z: nat)
    requires x <= y
    ensures x * z <= y * z
  {
  }

  lemma MulCancel(x: nat, y: nat, z: nat)
    requires z > 0 && x * z <= y * z
    ensures x <= y
  {
    if x > y {
      MulMonotone(y + 1, x, z);
    }
  }

  lemma AtMostTransitive(a: Ratio, b: Ratio, c: Ratio)
    requires Proper(a) && Proper(b) && Proper(c)
    requires AtMost(a, b) && AtMost(b, c)
    ensures AtMost(a, c)
  {
    MulMonotone(a.num * b.den, b.num * a.den, c.den);
    MulMonotone(b.num * c.den, c.num * b.den, a.den);
    assert a.num * b.den * c.den == (a.num * c.den) * b.den;
    assert b.num * a.den * c.den == b.num * c.den * a.den;
    assert c.num * b.den * a.den == (c.num * a.den) * b.den;
    MulCancel(a.num * c.den, c.num * a.den, b.den);
  }

  /** A ratio strictly above b is not equal to anything b equals. */
  lemma AboveIsNotSame(a: Ratio, b: Ratio, q: Ratio)
    requires Proper(a) && Proper(b) && Proper(q)
    requires !AtMost(a, b) && Same(b, q)
    ensures !Same(a, q)
  {
    if Same(a, q) {
      assert AtMost(a, q) && AtMost(q, b);
      AtMostTransitive(a, q, b);
    }
  }
}
