/** The batch run's use of the two pieces: each file's rows are sampled
    into a window of thirty, read with the detector's own column labels,
    and the window is handed to the detector. */
module Pipeline {

  import opened Observations
  import opened Statistics
  import opened Sampler
  import opened Detector
  import OutlierTheorems

  /** A non-empty window of a series read with the detector's column labels
      is always accepted: the detector never rejects what the sampler
      returns. */
  lemma SampleAccepted(series: seq<Observation>, n: nat, start: nat)
    requires n >= 1
    requires n <= |series| ==> ValidStart(series, n, start)
    ensures SampleWindow(series, n, start).Success? ==> Accepted(Frame(Schema, SampleWindow(series, n, start).value))
  {
  }

  /** A sample of the batch window size that the detector accepts yields at
      most seven outlier rows, a quarter of thirty rounded down. */
  lemma BatchSampleReportsAtMostSeven(series: seq<Observation>, start: nat, std: real, round2: real -> real)
    requires DefaultWindow <= |series| ==> ValidStart(series, DefaultWindow, start)
    ensures var r := SampleWindow(series, DefaultWindow, start);
      r.Success? && IsStdDev(std, Prices(r.value)) ==>
        var d := GetOutliers(Frame(Schema, r.value), std, round2);
        d.Success? && |d.value| <= 7
  {
    var r := SampleWindow(series, DefaultWindow, start);
    if r.Success? && IsStdDev(std, Prices(r.value)) {
      SampleAccepted(series, DefaultWindow, start);
      OutlierTheorems.OutlierCountBound(Frame(Schema, r.value), std, round2);
    }
  }
}
