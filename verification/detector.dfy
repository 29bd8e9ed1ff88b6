/** The outlier detector, `get_outliers`: reject an empty table or one
    whose columns are not `Ticker, Timestamp, Price`; otherwise keep, in
    their original order, the rows whose price lies more than two
    population standard deviations from the mean, and annotate each kept
    row with the rounded mean, its deviation from that rounded mean and
    how far (in percent) that deviation exceeds the threshold.

    `math.sqrt` and `round(x, 2)` are parameters: `std` is any
    non-negative square root of the variance, `round2` any function. */
module Detector {

  import opened Results
  import opened Observations
  import opened Statistics

  /** The column labels the detector accepts, in this order. */
  const Schema: seq<string> := ["Ticker", "Timestamp", "Price"]

  /** A table as the detector receives it: column labels and rows. */
  datatype Frame = Frame(columns: seq<string>, rows: seq<Observation>)

  datatype DetectError = NoRows | WrongColumns(columns: seq<string>)

  /** A kept row with the three columns the detector adds. */
  datatype OutlierRecord = OutlierRecord(
    row: Observation,
    sampleMean: real,
    deviation: real,
    pctOverThreshold: real)

  /** The tables for which the detector computes statistics. */
  predicate Accepted(data: Frame) {
    |data.rows| > 0 && data.columns == Schema
  }

  /** The outlier test, with a strict comparison: a price exactly two
      standard deviations away is not an outlier. */
  predicate IsOutlier(price: real, mean: real, std: real) {
    Abs(price - mean) > 2.0 * std
  }

  /** `idx` lists positions below `bound` in strictly increasing order. */
  predicate Increasing(idx: seq<nat>, bound: nat) {
    && (forall k :: 0 <= k < |idx| ==> idx[k] < bound)
    && (forall k, l :: 0 <= k < l < |idx| ==> idx[k] < idx[l])
  }

  /** `sub` consists of the rows of `rows` at positions `idx`, in order. */
  ghost predicate Selects(sub: seq<Observation>, rows: seq<Observation>, idx: seq<nat>) {
    && |sub| == |idx|
    && Increasing(idx, |rows|)
    && forall k :: 0 <= k < |idx| ==> sub[k] == rows[idx[k]]
  }

  /** The boolean row mask of the detector, as the increasing list of the
      positions it selects. */
  function OutlierPositions(ps: seq<real>, mean: real, std: real): (idx: seq<nat>)
    ensures |idx| <= |ps|
    ensures Increasing(idx, |ps|)
    ensures forall i :: 0 <= i < |ps| ==> (i in idx <==> IsOutlier(ps[i], mean, std))
    decreases |ps|
  {
    if |ps| == 0 then
      []
    else
      var last := |ps| - 1;
      var init := OutlierPositions(ps[..last], mean, std);
      assert forall i :: 0 <= i < last ==> ps[..last][i] == ps[i];
      if IsOutlier(ps[last], mean, std) then init + [last] else init
  }

  function RowsOf(recs: seq<OutlierRecord>): (rows: seq<Observation>)
    ensures |rows| == |recs|
    ensures forall k :: 0 <= k < |recs| ==> rows[k] == recs[k].row
  {
    seq(|recs|, k requires 0 <= k < |recs| => recs[k].row)
  }

  /** Every record carries the rounded mean, its deviation from that
      rounded mean, and the percentage by which the deviation exceeds twice
      the (then positive) standard deviation. */
  ghost predicate AnnotatedWith(recs: seq<OutlierRecord>, roundedMean: real, std: real, round2: real -> real) {
    forall k :: 0 <= k < |recs| ==>
      && recs[k].sampleMean == roundedMean
      && recs[k].deviation == round2(recs[k].row.price - roundedMean)
      && std > 0.0
      && recs[k].pctOverThreshold == round2(100.0 * (Abs(recs[k].deviation) / (2.0 * std) - 1.0))
  }

  /** The three added columns. The percentage divides by twice the
      standard deviation, so it needs `std > 0` whenever a row is kept. */
  function Annotate(outs: seq<Observation>, std: real, roundedMean: real, round2: real -> real): (recs: seq<OutlierRecord>)
    requires |outs| > 0 ==> std > 0.0
    ensures RowsOf(recs) == outs
    ensures AnnotatedWith(recs, roundedMean, std, round2)
  {
    var recs := seq(|outs|, k requires 0 <= k < |outs| =>
      var deviation := round2(outs[k].price - roundedMean);
      OutlierRecord(outs[k], roundedMean, deviation, round2(100.0 * (Abs(deviation) / (2.0 * std) - 1.0))));
    assert RowsOf(recs) == outs;
    recs
  }

  /** A series with no outlier price has an empty mask. */
  lemma {:induction false} NoOutlierPositions(ps: seq<real>, mean: real, std: real)
    requires forall i :: 0 <= i < |ps| ==> !IsOutlier(ps[i], mean, std)
    ensures OutlierPositions(ps, mean, std) == []
    decreases |ps|
  {
    if |ps| > 0 {
      var last := |ps| - 1;
      assert forall i :: 0 <= i < last ==> ps[..last][i] == ps[i];
      NoOutlierPositions(ps[..last], mean, std);
    }
  }

  /** Zero standard deviation leaves no outliers, so the percentage column
      never divides by zero. */
  lemma NoOutliersWithoutSpread(ps: seq<real>, std: real)
    requires |ps| > 0 && IsStdDev(std, ps) && std == 0.0
    ensures forall i :: 0 <= i < |ps| ==> !IsOutlier(ps[i], Mean(ps), std)
  {
    assert Variance(ps) == 0.0 by {
      assert std * std == 0.0 * 0.0;
    }
    VarianceZeroIff(ps);
  }

  /** `data[mask]`: the kept rows are exactly the input rows at the
      positions whose price is an outlier, unchanged and in input order. */
  function KeepOutliers(rows: seq<Observation>, mean: real, std: real): (outs: seq<Observation>)
    ensures |outs| <= |rows|
    ensures Selects(outs, rows, OutlierPositions(Prices(rows), mean, std))
    ensures forall i :: 0 <= i < |rows| ==>
      (i in OutlierPositions(Prices(rows), mean, std) <==> IsOutlier(rows[i].price, mean, std))
  {
    var idx := OutlierPositions(Prices(rows), mean, std);
    seq(|idx|, k requires 0 <= k < |idx| => rows[idx[k]])
  }

  /** With no outlier price, nothing is kept. */
  lemma NothingToKeep(rows: seq<Observation>, mean: real, std: real)
    requires forall i :: 0 <= i < |rows| ==> !IsOutlier(rows[i].price, mean, std)
    ensures KeepOutliers(rows, mean, std) == []
  {
    NoOutlierPositions(Prices(rows), mean, std);
  }

  /** The rows an accepted table reports, with their annotations. */
  function Report(rows: seq<Observation>, std: real, round2: real -> real): (recs: seq<OutlierRecord>)
    requires |rows| > 0 && IsStdDev(std, Prices(rows))
    ensures RowsOf(recs) == KeepOutliers(rows, Mean(Prices(rows)), std)
    ensures AnnotatedWith(recs, round2(Mean(Prices(rows))), std, round2)
  {
    var mean := Mean(Prices(rows));
    var outs := KeepOutliers(rows, mean, std);
    if std == 0.0 then
      NoOutliersWithoutSpread(Prices(rows), std);
      NothingToKeep(rows, mean, std);
      Annotate(outs, std, round2(mean), round2)
    else
      Annotate(outs, std, round2(mean), round2)
  }

  /** `get_outliers`: an empty table or one with other columns is
      rejected; otherwise the outlier rows are reported, in order, each
      with the rounded mean, its deviation from that rounded mean, and the
      percentage by which that deviation exceeds twice the standard
      deviation (which is then positive). */
  function GetOutliers(data: Frame, std: real, round2: real -> real): (r: Result<seq<OutlierRecord>, DetectError>)
    requires Accepted(data) ==> IsStdDev(std, Prices(data.rows))
    ensures r.Success? <==> Accepted(data)
    ensures |data.rows| == 0 ==> r == Failure(NoRows)
    ensures |data.rows| > 0 && data.columns != Schema ==> r == Failure(WrongColumns(data.columns))
    ensures Accepted(data) ==> r.Success? && RowsOf(r.value) == KeepOutliers(data.rows, Mean(Prices(data.rows)), std)
    ensures Accepted(data) ==> r.Success? && AnnotatedWith(r.value, round2(Mean(Prices(data.rows))), std, round2)
  {
    if |data.rows| == 0 then
      Failure(NoRows)
    else if |data.columns| != 3 || data.columns != Schema then
      Failure(WrongColumns(data.columns))
    else
      Success(Report(data.rows, std, round2))
  }
}
