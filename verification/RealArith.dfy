/** Sign and order of real products and quotients. */
module RealArith {

  /** A product kept as a term of its own, so that several of them can be compared linearly. */
  function Times(a: real, b: real): real { a * b }

  lemma MulNonNegative(x: real, y: real)
    requires x >= 0.0 && y >= 0.0
    ensures x * y >= 0.0
  {
  }

  lemma MulPositive(x: real, y: real)
    requires x > 0.0 && y > 0.0
    ensures x * y > 0.0
  {
  }

  lemma TimesMonotone(a: real, b: real, c: real)
    requires a <= b && c >= 0.0
    ensures c * a <= c * b && a * c <= b * c
  {
    MulNonNegative(b - a, c);
  }

  lemma UnitTimes(a: real, b: real)
    requires 0.0 <= a <= 1.0 && 0.0 <= b <= 1.0
    ensures 0.0 <= a * b <= 1.0
  {
    MulNonNegative(a, b);
    MulNonNegative(1.0 - a, b);
  }

  /** Cancelling a positive factor. */
  lemma CancelPositive(a: real, b: real, c: real)
    requires c > 0.0 && a * c <= b * c
    ensures a <= b
  {
    if a > b {
      MulPositive(a - b, c);
      assert false;
    }
  }

  // The same facts with products as opaque terms, for lemmas that combine several of them.

  lemma TimesOrder(a: real, b: real, c: real)
    requires a <= b && c >= 0.0
    ensures Times(c, a) <= Times(c, b) && Times(a, c) <= Times(b, c)
  {
    TimesMonotone(a, b, c);
  }

  lemma TimesSum(a: real, b: real, c: real)
    ensures Times(a + b, c) == Times(a, c) + Times(b, c)
    ensures Times(a - b, c) == Times(a, c) - Times(b, c)
    ensures Times(c, a + b) == Times(c, a) + Times(c, b)
    ensures Times(c, a - b) == Times(c, a) - Times(c, b)
  {
    assert (a + b) * c == a * c + b * c;
    assert (a - b) * c == a * c - b * c;
    assert c * (a + b) == c * a + c * b;
    assert c * (a - b) == c * a - c * b;
  }

  lemma TimesAssoc(a: real, b: real, c: real)
    ensures Times(Times(a, b), c) == Times(a, Times(b, c)) && Times(a, b) == Times(b, a)
  {
    assert (a * b) * c == a * (b * c);
  }

  lemma TimesUnit(a: real)
    ensures Times(a, 1.0) == a && Times(1.0, a) == a && Times(a, 0.0) == 0.0 && Times(0.0, a) == 0.0
  {
  }

  lemma TimesSign(a: real, b: real)
    ensures a > 0.0 && b > 0.0 ==> Times(a, b) > 0.0
    ensures a >= 0.0 && b >= 0.0 ==> Times(a, b) >= 0.0
    ensures a > 0.0 && b < 0.0 ==> Times(a, b) < 0.0
  {
    if a > 0.0 && b < 0.0 { MulPositive(a, -b); }
  }

  lemma TimesCancel(a: real, b: real, c: real)
    requires c > 0.0
    ensures a <= b <==> Times(a, c) <= Times(b, c)
  {
    hide Times;
    TimesSum(a, b, c);
    TimesSum(b, a, c);
    TimesSign(a - b, c);
    TimesSign(b - a, c);
  }

  lemma TimesQuotient(a: real, b: real)
    requires b != 0.0
    ensures Times(a / b, b) == a
  {
  }

  lemma TimesNegate(a: real, b: real)
    ensures Times(-a, b) == -Times(a, b)
  {
  }
}
