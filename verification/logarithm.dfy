/** The natural logarithm and exponential the decomposition relies on.

    Dafny's reals have no transcendental functions, so the pair is supplied
    by the caller as a `LogModel` and every result below holds for any pair
    obeying the laws of `Lawful`. */
module Logarithm {

  datatype LogModel = LogModel(ln: real -> real, exp: real -> real)

  /** The laws: ln 1 = 0, and exp undoes ln on the positive reals. */
  ghost predicate Lawful(m: LogModel) {
    && m.ln(1.0) == 0.0
    && forall x: real :: x > 0.0 ==> m.exp(m.ln(x)) == x
  }

  /** exp 0 = 1 follows from the two laws, since 0 is ln 1. */
  lemma ExpOfZero(m: LogModel)
    requires Lawful(m)
    ensures m.exp(0.0) == 1.0
  {
    assert m.exp(m.ln(1.0)) == 1.0;
  }

  /** ln is injective on the positive reals, so ln y - ln x is never zero
      for distinct positive x and y. */
  lemma LnInjective(m: LogModel, x: real, y: real)
    requires Lawful(m)
    requires x > 0.0 && y > 0.0 && x != y
    ensures m.ln(x) != m.ln(y)
  {
    assert m.exp(m.ln(x)) == x;
    assert m.exp(m.ln(y)) == y;
  }

  /** The further laws of the true logarithm, needed only for exactness:
      ln turns products into sums, every real is the logarithm of a positive
      value, and ln is strictly increasing. Each law is stated per instance,
      so that the lemmas below apply it only where they name it. */
  ghost predicate Multiplicative(m: LogModel) {
    && Lawful(m)
    && (forall x: real, y: real :: LnOfProduct(m, x, y))
    && (forall a: real :: LnOfExp(m, a))
    && (forall x: real, y: real :: LnIncreasing(m, x, y))
  }

  ghost predicate LnOfProduct(m: LogModel, x: real, y: real) {
    x > 0.0 && y > 0.0 ==> m.ln(x * y) == m.ln(x) + m.ln(y)
  }

  ghost predicate LnOfExp(m: LogModel, a: real) {
    m.exp(a) > 0.0 && m.ln(m.exp(a)) == a
  }

  ghost predicate LnIncreasing(m: LogModel, x: real, y: real) {
    0.0 < x < y ==> m.ln(x) < m.ln(y)
  }

  /** ln of a quotient is the difference of the logarithms. */
  lemma LnQuotient(m: LogModel, x: real, y: real)
    requires Multiplicative(m)
    requires x > 0.0 && y > 0.0
    ensures m.ln(x / y) == m.ln(x) - m.ln(y)
  {
    var q := x / y;
    assert q > 0.0 && q * y == x;
    LnProduct(m, q, y);
  }

  /** ln of a product is the sum of the logarithms. */
  lemma LnProduct(m: LogModel, x: real, y: real)
    requires Multiplicative(m)
    requires x > 0.0 && y > 0.0
    ensures m.ln(x * y) == m.ln(x) + m.ln(y)
  {
    assert LnOfProduct(m, x, y);
  }

  /** exp turns sums into products. */
  lemma ExpSum(m: LogModel, a: real, b: real)
    requires Multiplicative(m)
    ensures m.exp(a + b) == m.exp(a) * m.exp(b)
  {
    var x, y := m.exp(a), m.exp(b);
    assert LnOfExp(m, a) && LnOfExp(m, b);
    LnProduct(m, x, y);
    assert m.ln(x * y) == a + b;
    assert m.exp(m.ln(x * y)) == x * y;
  }

  /** ln preserves the strict order of positive values. */
  lemma LnMonotone(m: LogModel, x: real, y: real)
    requires Multiplicative(m)
    requires 0.0 < x < y
    ensures m.ln(x) < m.ln(y)
  {
    assert LnIncreasing(m, x, y);
  }

  /** The laws are consistent: a shifted identity obeys them. */
  lemma LawsAreConsistent()
    ensures Lawful(LogModel(x => x - 1.0, y => y + 1.0))
  {
  }
}
