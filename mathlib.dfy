/**
 * The functions the program takes from <math.h>. They are not defined here:
 * every operation that needs them receives them as a `Libm` value, and the
 * only facts assumed about them are the laws collected in `Lawful`.
 */
module MathLib {
  datatype Libm = Libm(sqrt: real -> real, sin: real -> real, cos: real -> real, tan: real -> real)

  /** At x, the square root returns the non-negative root. */
  ghost predicate SqrtLawAt(m: Libm, x: real) {
    0.0 <= x ==> 0.0 <= m.sqrt(x) && m.sqrt(x) * m.sqrt(x) == x
  }

  /** At x, sine and cosine lie on the unit circle. */
  ghost predicate UnitCircleAt(m: Libm, x: real) {
    m.sin(x) * m.sin(x) + m.cos(x) * m.cos(x) == 1.0
  }

  /**
   * The laws hold everywhere. They are stated through the pointwise
   * predicates so that a proof uses them only at the points it names.
   */
  ghost predicate Lawful(m: Libm) {
    (forall x: real :: SqrtLawAt(m, x)) && (forall x: real :: UnitCircleAt(m, x))
  }

  /** Sine and cosine at one point. */
  lemma UnitCircle(m: Libm, x: real)
    requires Lawful(m)
    ensures m.sin(x) * m.sin(x) + m.cos(x) * m.cos(x) == 1.0
  {
    assert UnitCircleAt(m, x);
  }

  lemma ProductZero(a: real, b: real)
    requires a * b == 0.0 && b != 0.0
    ensures a == 0.0
  {}

  lemma SquareZero(r: real)
    requires r * r == 0.0
    ensures r == 0.0
  {
    if r != 0.0 { ProductZero(r, r); }
  }

  lemma SumSquaresZero(a: real, b: real)
    requires a * a + b * b == 0.0
    ensures a == 0.0 && b == 0.0
  {
    assert a * a >= 0.0 && b * b >= 0.0;
    SquareZero(a);
    SquareZero(b);
  }

  /** The root of x is zero exactly when x is. */
  lemma SqrtZeroIff(m: Libm, x: real)
    requires Lawful(m) && 0.0 <= x
    ensures m.sqrt(x) == 0.0 <==> x == 0.0
  {
    assert SqrtLawAt(m, x);
    var r := m.sqrt(x);
    assert r * r == x;
    if x == 0.0 { SquareZero(r); }
  }

  /** The square-root law at one point, with its zero case. */
  lemma SqrtLaw(m: Libm, x: real)
    requires Lawful(m) && 0.0 <= x
    ensures 0.0 <= m.sqrt(x) && m.sqrt(x) * m.sqrt(x) == x
    ensures m.sqrt(x) == 0.0 <==> x == 0.0
  {
    assert SqrtLawAt(m, x);
    SqrtZeroIff(m, x);
  }

  /** Two non-negative reals with equal squares are equal. */
  lemma NonNegSquaresEqual(a: real, b: real)
    requires 0.0 <= a && 0.0 <= b && a * a == b * b
    ensures a == b
  {
    assert (a - b) * (a + b) == a * a - b * b;
    if a + b != 0.0 { ProductZero(a - b, a + b); }
  }

  /** Any non-negative r with r*r == x is the root of x. */
  lemma SqrtUnique(m: Libm, x: real, r: real)
    requires Lawful(m) && 0.0 <= r && r * r == x
    ensures m.sqrt(x) == r
  {
    SqrtLaw(m, x);
    NonNegSquaresEqual(m.sqrt(x), r);
  }
}
