/** What the detector's result means, stated without the square root:
    which rows it reports and in which order, when it reports nothing, how
    many rows it can report at most, and what it reports for a single
    spike in an otherwise flat series. */
module OutlierTheorems {

  import opened Results
  import opened Observations
  import opened Statistics
  import opened Detector
  import RealArith

  /** The outlier test in squared form: with `std` a non-negative root of
      `v`, a price is more than `2 * std` from the mean exactly when its
      squared deviation exceeds `4 * v`. */
  lemma OutlierTestSquared(price: real, mean: real, std: real, v: real)
    requires std >= 0.0 && std * std == v
    ensures IsOutlier(price, mean, std) <==> Sq(price - mean) > 4.0 * v
  {
    var d := price - mean;
    var a := Abs(d);
    assert Sq(d) == a * a by {
      if d < 0.0 {
        RealArith.SquareOfNegation(d, a * a);
      }
    }
    RealArith.SquareOfDouble(std, v);
    RealArith.SquaresOrdered(2.0 * std, a, (2.0 * std) * (2.0 * std), a * a);
  }

  /** A position is in the mask iff its squared deviation from the mean
      exceeds four times the population variance, whichever side of the
      mean the price lies on. */
  lemma MaskIsSquaredTest(ps: seq<real>, std: real)
    requires |ps| > 0 && IsStdDev(std, ps)
    ensures forall i :: 0 <= i < |ps| ==>
      (i in OutlierPositions(ps, Mean(ps), std) <==> Sq(ps[i] - Mean(ps)) > 4.0 * Variance(ps))
  {
    forall i | 0 <= i < |ps|
      ensures IsOutlier(ps[i], Mean(ps), std) <==> Sq(ps[i] - Mean(ps)) > 4.0 * Variance(ps)
    {
      OutlierTestSquared(ps[i], Mean(ps), std, Variance(ps));
    }
  }

  /** The rows an accepted table reports are its rows at the mask
      positions, in input order and unchanged. */
  lemma ReportsMaskedRowsInOrder(data: Frame, std: real, round2: real -> real)
    requires Accepted(data) && IsStdDev(std, Prices(data.rows))
    ensures var r := GetOutliers(data, std, round2);
      && r.Success?
      && Selects(RowsOf(r.value), data.rows, OutlierPositions(Prices(data.rows), Mean(Prices(data.rows)), std))
  {
  }

  /** A standard deviation of zero means zero variance, and the other way
      round. */
  lemma StdZeroIff(std: real, ps: seq<real>)
    requires |ps| > 0 && IsStdDev(std, ps)
    ensures std == 0.0 <==> Variance(ps) == 0.0
  {
    RealArith.SelfProduct(std, Variance(ps));
  }

  /** An accepted table whose prices are all equal reports nothing, so the
      percentage column never divides by a zero deviation. */
  lemma ConstantPricesHaveNoOutliers(data: Frame, std: real, round2: real -> real)
    requires Accepted(data) && IsStdDev(std, Prices(data.rows))
    requires AllEqual(Prices(data.rows))
    ensures GetOutliers(data, std, round2) == Success([])
  {
    var ps := Prices(data.rows);
    VarianceZeroIff(ps);
    StdZeroIff(std, ps);
    NoOutliersWithoutSpread(ps, std);
    NothingToKeep(data.rows, Mean(ps), std);
    assert |GetOutliers(data, std, round2).value| == 0;
  }

  /** A one-row table is never an outlier of itself. */
  lemma SingleRowHasNoOutliers(data: Frame, std: real, round2: real -> real)
    requires Accepted(data) && IsStdDev(std, Prices(data.rows))
    requires |data.rows| == 1
    ensures GetOutliers(data, std, round2) == Success([])
  {
    ConstantPricesHaveNoOutliers(data, std, round2);
  }

  /** `q` added up `c` times. */
  function Times(c: nat, q: real): (t: real)
    ensures q >= 0.0 ==> t >= 0.0
  {
    if c == 0 then 0.0 else Times(c - 1, q) + q
  }

  /** Repeated addition is multiplication. */
  lemma {:induction false} TimesIsProduct(c: nat, q: real)
    ensures Times(c, q) == (c as real) * q
  {
    if c > 0 {
      TimesIsProduct(c - 1, q);
      assert (c as real) * q == ((c - 1) as real) * q + q;
    }
  }

  /** The squared deviations sum to at least `q` (four times the variance
      `v`, the square of `std`) times the number of masked positions, and
      to strictly more once some position is masked. */
  lemma {:induction false} OutlierMass(ps: seq<real>, mean: real, std: real, v: real, q: real)
    requires std >= 0.0 && std * std == v && q == 4.0 * v
    ensures SumSqDev(ps, mean) >= Times(|OutlierPositions(ps, mean, std)|, q)
    ensures |OutlierPositions(ps, mean, std)| > 0 ==> SumSqDev(ps, mean) > Times(|OutlierPositions(ps, mean, std)|, q)
    decreases |ps|
  {
    if |ps| > 0 {
      var last := |ps| - 1;
      var init := ps[..last];
      OutlierMass(init, mean, std, v, q);
      var counts := IsOutlier(ps[last], mean, std);
      var c0 := |OutlierPositions(init, mean, std)|;
      assert |OutlierPositions(ps, mean, std)| == if counts then c0 + 1 else c0;
      assert SumSqDev(ps, mean) == SumSqDev(init, mean) + Sq(ps[last] - mean);
      OutlierTestSquared(ps[last], mean, std, v);
      SqPositive(ps[last] - mean);
      assert q >= 0.0 by {
        RealArith.SelfProduct(std, v);
      }
    }
  }

  /** The arithmetic of Chebyshev's bound: if `n` values of variance `v`
      have squared deviations summing to `s`, more than `c` times `4v`,
      then `4c < n`. */
  lemma CountFromMass(s: real, v: real, n: real, c: nat, q: real)
    requires v >= 0.0 && n > 0.0 && v == s / n && q == 4.0 * v && s > Times(c, q)
    ensures 4.0 * (c as real) < n
  {
    TimesIsProduct(c, q);
    RealArith.QuotientTimesDivisor(s, n, v);
    var k := n - 4.0 * (c as real);
    assert v * k == s - (c as real) * q;
    RealArith.PositiveCofactor(v, k, v * k);
  }

  /** Chebyshev's bound on the mask: fewer than a quarter of the positions
      of a non-empty series lie more than two standard deviations from its
      mean. */
  lemma MaskBound(ps: seq<real>, std: real)
    requires |ps| > 0 && IsStdDev(std, ps)
    ensures 4 * |OutlierPositions(ps, Mean(ps), std)| < |ps|
  {
    var m := Mean(ps);
    var v := Variance(ps);
    var c := |OutlierPositions(ps, m, std)|;
    if c > 0 {
      OutlierMass(ps, m, std, v, 4.0 * v);
      CountFromMass(SumSqDev(ps, m), v, |ps| as real, c, 4.0 * v);
    }
  }

  /** Chebyshev's bound for two standard deviations: fewer than a quarter
      of the rows of an accepted table are reported. */
  lemma OutlierCountBound(data: Frame, std: real, round2: real -> real)
    requires Accepted(data) && IsStdDev(std, Prices(data.rows))
    ensures GetOutliers(data, std, round2).Success?
    ensures 4 * |GetOutliers(data, std, round2).value| < |data.rows|
  {
    var ps := Prices(data.rows);
    MaskBound(ps, std);
  }

  /** The prices of a flat series of nine rows at `base` followed by one
      row at `base + jump`, where the jump is 90 up or down: the mean moves
      a tenth of the jump and the population variance is 729, so the
      standard deviation is 27. */
  lemma SpikeStatistics(ps: seq<real>, base: real, jump: real)
    requires |ps| == 10 && (jump == 90.0 || jump == -90.0)
    requires forall i :: 0 <= i < 9 ==> ps[i] == base
    requires ps[9] == base + jump
    ensures Mean(ps) == base + jump / 10.0
    ensures Variance(ps) == 729.0
    ensures OutlierPositions(ps, Mean(ps), 27.0) == [9]
  {
    var flat := ps[..9];
    assert forall i :: 0 <= i < 9 ==> flat[i] == base;
    SumOfConstant(flat, base);
    var m := base + jump / 10.0;
    assert Mean(ps) == m;
    SumSqDevOfConstant(flat, base, m);
    assert Sq(base - m) == 81.0;
    assert Sq(ps[9] - m) == 6561.0;
    assert SumSqDev(ps, m) == 7290.0;
    NoOutlierPositions(flat, m, 27.0);
  }

  /** Of a flat series of nine rows at `base` followed by one row at
      `base + jump`, only the last row is kept. */
  lemma SpikeKept(rows: seq<Observation>, base: real, jump: real)
    requires |rows| == 10 && (jump == 90.0 || jump == -90.0)
    requires forall i :: 0 <= i < 9 ==> rows[i].price == base
    requires rows[9].price == base + jump
    ensures Mean(Prices(rows)) == base + jump / 10.0
    ensures IsStdDev(27.0, Prices(rows))
    ensures KeepOutliers(rows, base + jump / 10.0, 27.0) == [rows[9]]
  {
    SpikeStatistics(Prices(rows), base, jump);
    var idx := OutlierPositions(Prices(rows), base + jump / 10.0, 27.0);
    assert idx == [9];
    var keep := KeepOutliers(rows, base + jump / 10.0, 27.0);
    assert keep == seq(|idx|, k requires 0 <= k < |idx| => rows[idx[k]]);
    assert |keep| == 1 && keep[0] == rows[9];
  }

  /** The report for a flat series of nine rows at `base` followed by one
      row at `base + jump`: only the last row, annotated from the rounded
      mean. */
  lemma SpikeReported(rows: seq<Observation>, base: real, jump: real, round2: real -> real)
    requires |rows| == 10 && (jump == 90.0 || jump == -90.0)
    requires forall i :: 0 <= i < 9 ==> rows[i].price == base
    requires rows[9].price == base + jump
    ensures IsStdDev(27.0, Prices(rows))
    ensures var mean := round2(base + jump / 10.0);
      var deviation := round2(base + jump - mean);
      GetOutliers(Frame(Schema, rows), 27.0, round2)
        == Success([OutlierRecord(rows[9], mean, deviation, round2(100.0 * (Abs(deviation) / 54.0 - 1.0)))])
  {
    SpikeKept(rows, base, jump);
    var m := base + jump / 10.0;
    var r := GetOutliers(Frame(Schema, rows), 27.0, round2);
    assert RowsOf(r.value) == [rows[9]];
    var rec := r.value[0];
    assert AnnotatedWith(r.value, round2(m), 27.0, round2);
    assert rec.sampleMean == round2(m);
    assert rec.deviation == round2(base + jump - round2(m));
    assert 2.0 * 27.0 == 54.0;
    assert r.value == [rec];
  }

  /** A flat series of nine rows at 10 followed by one at 100, stated
      for a rounding that leaves the integers it meets unchanged: the
      last row is the only one reported, with mean 19, deviation 81 and
      50 percent over the threshold. */
  lemma HighSpikeReported(rows: seq<Observation>, round2: real -> real)
    requires |rows| == 10
    requires forall i :: 0 <= i < 9 ==> rows[i].price == 10.0
    requires rows[9].price == 100.0
    requires round2(19.0) == 19.0 && round2(81.0) == 81.0 && round2(50.0) == 50.0
    ensures IsStdDev(27.0, Prices(rows))
    ensures GetOutliers(Frame(Schema, rows), 27.0, round2)
         == Success([OutlierRecord(rows[9], 19.0, 81.0, 50.0)])
  {
    SpikeReported(rows, 10.0, 90.0, round2);
    assert 100.0 * (81.0 / 54.0 - 1.0) == 50.0;
  }

  /** The same series mirrored, nine rows at 100 followed by one at 10:
      the low row is reported too, with a negative deviation, because the
      test compares the absolute deviation. */
  lemma LowSpikeReported(rows: seq<Observation>, round2: real -> real)
    requires |rows| == 10
    requires forall i :: 0 <= i < 9 ==> rows[i].price == 100.0
    requires rows[9].price == 10.0
    requires round2(91.0) == 91.0 && round2(-81.0) == -81.0 && round2(50.0) == 50.0
    ensures IsStdDev(27.0, Prices(rows))
    ensures GetOutliers(Frame(Schema, rows), 27.0, round2)
         == Success([OutlierRecord(rows[9], 91.0, -81.0, 50.0)])
  {
    SpikeReported(rows, 100.0, -90.0, round2);
    assert 100.0 * (81.0 / 54.0 - 1.0) == 50.0;
  }
}
