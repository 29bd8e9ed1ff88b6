/** The sample statistics of the outlier detector: the arithmetic mean and
    the population variance (divisor `n`, not `n - 1`). Sums run from the
    first element to the last, as Python's built-in `sum` does. */
module Statistics {

  import RealArith

  function Sum(xs: seq<real>): real
    decreases |xs|
  {
    if |xs| == 0 then 0.0 else Sum(xs[..|xs| - 1]) + xs[|xs| - 1]
  }

  function Abs(x: real): real {
    if x < 0.0 then -x else x
  }

  function Sq(x: real): real {
    x * x
  }

  /** Sum of squared deviations of `xs` from `m`. */
  function SumSqDev(xs: seq<real>, m: real): real
    decreases |xs|
  {
    if |xs| == 0 then 0.0 else SumSqDev(xs[..|xs| - 1], m) + Sq(xs[|xs| - 1] - m)
  }

  /** The arithmetic mean: the value whose `n`-fold is the sum, which is
      the common value when all values are equal. */
  function Mean(xs: seq<real>): (r: real)
    requires |xs| > 0
    ensures (|xs| as real) * r == Sum(xs)
    ensures AllEqual(xs) ==> r == xs[0]
  {
    if AllEqual(xs) then
      SumOfConstant(xs, xs[0]);
      Sum(xs) / (|xs| as real)
    else
      Sum(xs) / (|xs| as real)
  }

  /** Population variance: the mean squared deviation from the mean, never
      negative, so its square root always exists. */
  function Variance(xs: seq<real>): (r: real)
    requires |xs| > 0
    ensures r >= 0.0
    ensures (|xs| as real) * r == SumSqDev(xs, Mean(xs))
  {
    SumSqDevNonnegative(xs, Mean(xs));
    SumSqDev(xs, Mean(xs)) / (|xs| as real)
  }

  /** `std` is the population standard deviation of `xs`: the non-negative
      square root of the variance. The script obtains it from `math.sqrt`. */
  predicate IsStdDev(std: real, xs: seq<real>)
    requires |xs| > 0
  {
    std >= 0.0 && std * std == Variance(xs)
  }

  /** A square is non-negative, and zero only at zero. */
  lemma SqPositive(x: real)
    ensures Sq(x) >= 0.0
    ensures x != 0.0 ==> Sq(x) > 0.0
  {
    RealArith.SelfProduct(x, Sq(x));
  }

  predicate AllEqual(xs: seq<real>) {
    forall i, j :: 0 <= i < |xs| && 0 <= j < |xs| ==> xs[i] == xs[j]
  }

  lemma {:induction false} SumOfConstant(xs: seq<real>, c: real)
    requires forall i :: 0 <= i < |xs| ==> xs[i] == c
    ensures Sum(xs) == (|xs| as real) * c
    decreases |xs|
  {
    if |xs| > 0 {
      SumOfConstant(xs[..|xs| - 1], c);
    }
  }

  lemma {:induction false} SumSqDevOfConstant(xs: seq<real>, c: real, m: real)
    requires forall i :: 0 <= i < |xs| ==> xs[i] == c
    ensures SumSqDev(xs, m) == (|xs| as real) * Sq(c - m)
    decreases |xs|
  {
    if |xs| > 0 {
      SumSqDevOfConstant(xs[..|xs| - 1], c, m);
    }
  }

  lemma {:induction false} SumSqDevNonnegative(xs: seq<real>, m: real)
    ensures SumSqDev(xs, m) >= 0.0
    decreases |xs|
  {
    if |xs| > 0 {
      SumSqDevNonnegative(xs[..|xs| - 1], m);
      SqPositive(xs[|xs| - 1] - m);
    }
  }

  /** The squared deviations vanish exactly when every value is `m`. */
  lemma {:induction false} SumSqDevZeroIff(xs: seq<real>, m: real)
    ensures SumSqDev(xs, m) == 0.0 <==> forall i :: 0 <= i < |xs| ==> xs[i] == m
    decreases |xs|
  {
    if |xs| > 0 {
      var init := xs[..|xs| - 1];
      SumSqDevZeroIff(init, m);
      SumSqDevNonnegative(init, m);
      SqPositive(xs[|xs| - 1] - m);
      if SumSqDev(xs, m) == 0.0 {
        assert Sq(xs[|xs| - 1] - m) == 0.0;
        forall i | 0 <= i < |xs|
          ensures xs[i] == m
        {
          if i < |xs| - 1 {
            assert xs[i] == init[i];
          }
        }
      }
      if forall i :: 0 <= i < |xs| ==> xs[i] == m {
        assert forall i :: 0 <= i < |init| ==> init[i] == m by {
          forall i | 0 <= i < |init|
            ensures init[i] == m
          {
            assert init[i] == xs[i];
          }
        }
      }
    }
  }

  /** The population variance is zero exactly when all values are equal;
      a single value always has zero variance. */
  lemma VarianceZeroIff(xs: seq<real>)
    requires |xs| > 0
    ensures Variance(xs) == 0.0 <==> AllEqual(xs)
    ensures |xs| == 1 ==> Variance(xs) == 0.0
  {
    var m := Mean(xs);
    SumSqDevZeroIff(xs, m);
    assert SumSqDev(xs, m) == Variance(xs) * (|xs| as real);
  }
}
