/** Sign facts about products of reals. Each is stated over a product of
    two named factors and a named result, the form in which the solver
    settles it without unfolding any function definition; the statistics
    lemmas instantiate them. */
module RealArith {

  lemma PositiveProduct(x: real, y: real, s: real)
    requires x > 0.0 && y > 0.0 && s == x * y
    ensures s > 0.0
  {
  }

  lemma NegativeFactorsProduct(x: real, y: real, s: real)
    requires x < 0.0 && y < 0.0 && s == x * y
    ensures s > 0.0
  {
  }

  /** A square is non-negative, and zero only at zero. */
  lemma SelfProduct(x: real, s: real)
    requires s == x * x
    ensures s >= 0.0
    ensures x != 0.0 ==> s > 0.0
  {
    if x > 0.0 {
      PositiveProduct(x, x, s);
    } else if x < 0.0 {
      NegativeFactorsProduct(x, x, s);
    } else {
      assert s == 0.0 * 0.0;
    }
  }

  lemma NonnegativeTimesNonpositive(x: real, y: real, s: real)
    requires x >= 0.0 && y <= 0.0 && s == x * y
    ensures s <= 0.0
  {
  }

  /** Squaring preserves the order of non-negative reals. */
  lemma SquaresOrdered(a: real, b: real, sa: real, sb: real)
    requires a >= 0.0 && b >= 0.0 && sa == a * a && sb == b * b
    ensures a < b <==> sa < sb
    ensures a == b <==> sa == sb
  {
    if a < b {
      var p := (b - a) * (b + a);
      PositiveProduct(b - a, b + a, p);
      assert p == sb - sa;
    } else if b < a {
      var p := (a - b) * (a + b);
      PositiveProduct(a - b, a + b, p);
      assert p == sa - sb;
    }
  }

  /** A square equals the square of the absolute value. */
  lemma SquareOfNegation(x: real, s: real)
    requires s == x * x
    ensures s == (-x) * (-x)
  {
  }

  /** Four times a square is the square of the double. */
  lemma SquareOfDouble(x: real, s: real)
    requires s == x * x
    ensures 4.0 * s == (2.0 * x) * (2.0 * x)
  {
  }

  /** If a non-negative factor times `k` is positive, `k` is positive. */
  lemma PositiveCofactor(v: real, k: real, p: real)
    requires v >= 0.0 && p == v * k && p > 0.0
    ensures k > 0.0
  {
    if k <= 0.0 {
      NonnegativeTimesNonpositive(v, k, p);
    }
  }

  /** Undoing a division by a non-zero divisor. */
  lemma QuotientTimesDivisor(s: real, n: real, v: real)
    requires n != 0.0 && v == s / n
    ensures s == v * n
  {
  }
}
