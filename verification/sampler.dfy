/** The window sampler: the part of `get_n_random_consecutive_datapoints`
    that runs after the file has been read into rows. The random start
    position is an explicit parameter. */
module Sampler {

  import opened Results
  import opened Observations

  /** The window size the batch run asks for. */
  const DefaultWindow: nat := 30

  datatype SampleError = TooFewRows(available: nat, wanted: nat)

  /** The starts `randrange(0, |series| - n + 1)` can return. */
  predicate ValidStart(series: seq<Observation>, n: nat, start: nat) {
    n <= |series| && start <= |series| - n
  }

  /** A series shorter than the window fails; otherwise the window is the
      `n` rows beginning at the drawn start. The draw is made only when the
      series is long enough, so only then must it lie in range. */
  function SampleWindow(series: seq<Observation>, n: nat, start: nat): (r: Result<seq<Observation>, SampleError>)
    requires n <= |series| ==> ValidStart(series, n, start)
    ensures r.Failure? <==> |series| < n
    ensures r.Failure? ==> r.error == TooFewRows(|series|, n)
    ensures r.Success? ==> |r.value| == n && start + n <= |series|
    ensures r.Success? ==> forall i :: 0 <= i < n ==> r.value[i] == series[start + i]
  {
    if |series| < n then
      Failure(TooFewRows(|series|, n))
    else
      Success(series[start..start + n])
  }

  /** A successful sample is a contiguous slice of the series: putting back
      the rows before and after it gives the series again. */
  lemma WindowReassembles(series: seq<Observation>, n: nat, start: nat)
    requires ValidStart(series, n, start)
    ensures SampleWindow(series, n, start).Success?
    ensures series == series[..start] + SampleWindow(series, n, start).value + series[start + n..]
  {
  }

  /** `w` occurs in `series` at offset `s`: row for row, without running
      past the end. */
  predicate OccursAt(series: seq<Observation>, w: seq<Observation>, s: nat) {
    s + |w| <= |series| && forall i :: 0 <= i < |w| ==> w[i] == series[s + i]
  }

  /** The possible samples are exactly the runs of `n` consecutive rows
      of the series: every legal draw yields `n` rows occurring in the
      series at some offset, and every such run is yielded by some legal
      draw. */
  lemma SamplesAreWindows(series: seq<Observation>, n: nat, w: seq<Observation>)
    ensures (exists start: nat :: ValidStart(series, n, start) && SampleWindow(series, n, start) == Success(w))
        <==> (|w| == n && exists s: nat :: OccursAt(series, w, s))
  {
    if exists start: nat :: ValidStart(series, n, start) && SampleWindow(series, n, start) == Success(w) {
      var start: nat :| ValidStart(series, n, start) && SampleWindow(series, n, start) == Success(w);
      assert OccursAt(series, w, start);
    }
    if |w| == n && exists s: nat :: OccursAt(series, w, s) {
      var s: nat :| OccursAt(series, w, s);
      assert w == series[s..s + n];
      assert SampleWindow(series, n, s) == Success(w);
    }
  }
}
