/** The real exponential and logarithm that the f64 code approximates.
    They are parameters: every statement holds for each pair of functions with these three laws,
    which the natural exponential and logarithm satisfy. */
module Exponential {
  import opened RealFacts

  datatype ExpLn = ExpLn(exp: real -> real, ln: real -> real)

  ghost predicate Adds(m: ExpLn, x: real, y: real) {
    m.exp(x + y) == m.exp(x) * m.exp(y)
  }

  ghost predicate AboveTangent(m: ExpLn, x: real) {
    m.exp(x) >= 1.0 + x
  }

  ghost predicate Inverts(m: ExpLn, x: real) {
    x > 0.0 ==> m.exp(m.ln(x)) == x
  }

  ghost predicate Lawful(m: ExpLn) {
    && (forall x, y :: Adds(m, x, y))
    && (forall x :: AboveTangent(m, x))
    && (forall x :: Inverts(m, x))
  }

  lemma ExpAdd(m: ExpLn, x: real, y: real)
    requires Lawful(m)
    ensures m.exp(x + y) == m.exp(x) * m.exp(y)
  {
    assert Adds(m, x, y);
  }

  lemma ExpZero(m: ExpLn)
    requires Lawful(m)
    ensures m.exp(0.0) == 1.0
  {
    ExpAdd(m, 0.0, 0.0);
    assert AboveTangent(m, 0.0);
    var e := m.exp(0.0);
    assert e * (e - 1.0) == 0.0;
  }

  lemma SquareNonnegative(x: real)
    ensures x * x >= 0.0
  {
  }

  lemma NotZero(x: real, y: real)
    requires x * y == 1.0
    ensures x != 0.0
  {
  }

  lemma ExpPositive(m: ExpLn, x: real)
    requires Lawful(m)
    ensures m.exp(x) > 0.0
  {
    ExpAdd(m, x / 2.0, x / 2.0);
    ExpAdd(m, x, -x);
    ExpZero(m);
    var h := m.exp(x / 2.0);
    assert x / 2.0 + x / 2.0 == x && x + -x == 0.0;
    SquareNonnegative(h);
    NotZero(m.exp(x), m.exp(-x));
  }

  lemma ExpIncreasing(m: ExpLn, x: real, y: real)
    requires Lawful(m)
    ensures x < y ==> m.exp(x) < m.exp(y)
    ensures x <= y ==> m.exp(x) <= m.exp(y)
  {
    if x < y {
      ExpAdd(m, x, y - x);
      assert AboveTangent(m, y - x);
      ExpPositive(m, x);
      assert x + (y - x) == y;
      StrictProduct(m.exp(x), 1.0, m.exp(y - x));
    }
  }

  lemma LnExp(m: ExpLn, x: real)
    requires Lawful(m)
    ensures m.ln(m.exp(x)) == x
  {
    ExpPositive(m, x);
    var y := m.ln(m.exp(x));
    assert Inverts(m, m.exp(x));
    ExpIncreasing(m, x, y);
    ExpIncreasing(m, y, x);
  }

  lemma ExpLnIs(m: ExpLn, x: real)
    requires Lawful(m) && x > 0.0
    ensures m.exp(m.ln(x)) == x
  {
    assert Inverts(m, x);
  }

  lemma LnIncreasing(m: ExpLn, x: real, y: real)
    requires Lawful(m) && 0.0 < x && 0.0 < y
    ensures x < y ==> m.ln(x) < m.ln(y)
    ensures x <= y ==> m.ln(x) <= m.ln(y)
  {
    ExpLnIs(m, x);
    ExpLnIs(m, y);
    ExpIncreasing(m, m.ln(y), m.ln(x));
  }

  lemma LnProduct(m: ExpLn, x: real, y: real)
    requires Lawful(m) && x > 0.0 && y > 0.0
    ensures m.ln(x * y) == m.ln(x) + m.ln(y)
  {
    ExpLnIs(m, x);
    ExpLnIs(m, y);
    PositiveProduct(x, y);
    ExpAdd(m, m.ln(x), m.ln(y));
    var sum := m.ln(x) + m.ln(y);
    assert m.exp(sum) == x * y;
    LnExp(m, sum);
  }

  lemma LnOne(m: ExpLn)
    requires Lawful(m)
    ensures m.ln(1.0) == 0.0
  {
    ExpZero(m);
    LnExp(m, 0.0);
  }

  /** exp(x) <= 1/(1-x) below 1. */
  lemma ExpBelowReciprocal(m: ExpLn, x: real)
    requires Lawful(m) && x < 1.0
    ensures m.exp(x) * (1.0 - x) <= 1.0
  {
    ExpAdd(m, x, -x);
    ExpZero(m);
    assert AboveTangent(m, -x);
    ExpPositive(m, x);
    assert x + -x == 0.0;
    OrderedProduct(m.exp(x), 1.0 - x, m.exp(-x));
  }

  /** A logarithm in units of b. */
  function ScaledLn(m: ExpLn, b: real, x: real): real {
    b * m.ln(x)
  }

  /** b ln(ratio * z) - b ln(z) == b ln(ratio). */
  lemma LnRatio(m: ExpLn, b: real, ratio: real, z: real, scaled: real)
    requires Lawful(m) && ratio > 0.0 && z > 0.0 && scaled == ratio * z
    ensures scaled > 0.0
    ensures ScaledLn(m, b, scaled) == ScaledLn(m, b, ratio) + ScaledLn(m, b, z)
  {
    PositiveProduct(ratio, z);
    LnProduct(m, ratio, z);
    Distribute(b, m.ln(ratio), m.ln(z));
  }

  /** b ln(exp(x/b)) == x. */
  lemma LnScaled(m: ExpLn, b: real, x: real)
    requires Lawful(m) && b > 0.0
    ensures ScaledLn(m, b, m.exp(x / b)) == x
  {
    LnExp(m, x / b);
    Cancel(x, b);
  }

  lemma ScaledLnIncreasing(m: ExpLn, b: real, x: real, y: real)
    requires Lawful(m) && b > 0.0 && 0.0 < x && 0.0 < y
    ensures x < y ==> ScaledLn(m, b, x) < ScaledLn(m, b, y)
    ensures x <= y ==> ScaledLn(m, b, x) <= ScaledLn(m, b, y)
  {
    LnIncreasing(m, x, y);
    if x < y {
      StrictProduct(b, m.ln(x), m.ln(y));
    }
  }
}
