/**
 * The latency ledger's summary (`EduMoodRecognizer.print_latency_summary`):
 * with no samples there is nothing to report; otherwise the number of
 * analysed frames and the average, smallest and largest latency.
 */
module Latency {
  import opened Wrappers

  function Sum(samples: seq<nat>): nat
  {
    if samples == [] then 0 else Sum(samples[..|samples| - 1]) + samples[|samples| - 1]
  }

  /** The smallest sample (Python's min). */
  function Minimum(samples: seq<nat>): nat
    requires samples != []
  {
    if |samples| == 1 then samples[0]
    else
      var m, last := Minimum(samples[..|samples| - 1]), samples[|samples| - 1];
      if last < m then last else m
  }

  /** The largest sample (Python's max). */
  function Maximum(samples: seq<nat>): nat
    requires samples != []
  {
    if |samples| == 1 then samples[0]
    else
      var m, last := Maximum(samples[..|samples| - 1]), samples[|samples| - 1];
      if last > m then last else m
  }

  /** The minimum is one of the samples and no sample is smaller. */
  lemma {:induction false} MinimumIsSmallest(samples: seq<nat>)
    requires samples != []
    ensures Minimum(samples) in samples
    ensures forall i :: 0 <= i < |samples| ==> Minimum(samples) <= samples[i]
  {
    if |samples| > 1 {
      var rest := samples[..|samples| - 1];
      MinimumIsSmallest(rest);
      assert forall i :: 0 <= i < |rest| ==> rest[i] == samples[i];
    }
  }

  /** The maximum is one of the samples and no sample is larger. */
  lemma {:induction false} MaximumIsLargest(samples: seq<nat>)
    requires samples != []
    ensures Maximum(samples) in samples
    ensures forall i :: 0 <= i < |samples| ==> samples[i] <= Maximum(samples)
  {
    if |samples| > 1 {
      var rest := samples[..|samples| - 1];
      MaximumIsLargest(rest);
      assert forall i :: 0 <= i < |rest| ==> rest[i] == samples[i];
    }
  }

  /** What the summary reports when there is data. The average is exact (a
      real number), the sum divided by the count. */
  datatype LatencyStats = LatencyStats(count: nat, average: real, minimum: nat, maximum: nat)

  /** None is the "no data" answer for an empty ledger: no minimum, maximum
      or average is computed then. */
  function Summarize(samples: seq<nat>): (r: Option<LatencyStats>)
    ensures r.None? <==> samples == []
  {
    if samples == [] then None
    else Some(LatencyStats(
                count := |samples|,
                average := Sum(samples) as real / |samples| as real,
                minimum := Minimum(samples),
                maximum := Maximum(samples)))
  }

  lemma MulSucc(k: nat, x: nat)
    ensures (k + 1) * x == k * x + x
  {
  }

  /** Every sample between lo and hi puts the sum between |samples| * lo and
      |samples| * hi. */
  lemma {:induction false} SumBetween(samples: seq<nat>, lo: nat, hi: nat)
    requires forall i :: 0 <= i < |samples| ==> lo <= samples[i] <= hi
    ensures |samples| * lo <= Sum(samples) <= |samples| * hi
  {
    if samples != [] {
      var rest := samples[..|samples| - 1];
      assert forall i :: 0 <= i < |rest| ==> rest[i] == samples[i];
      SumBetween(rest, lo, hi);
      MulSucc(|rest|, lo);
      MulSucc(|rest|, hi);
    }
  }

  // Steps of real arithmetic, kept apart so that each is proved on its own.

  lemma DivMul(a: real, b: real)
    requires b > 0.0
    ensures (a / b) * b == a
  {}
  lemma MulCongruent(a: real, b: real, c: real, d: real)
    requires a == b && c == d
    ensures a * c == b * d
  {}

  /** The exact average of n values whose sum lies between n * lo and
      n * hi lies between lo and hi. */
  lemma AverageBetween(sum: nat, n: nat, lo: nat, hi: nat)
    requires n > 0
    requires n * lo <= sum <= n * hi
    ensures lo as real <= sum as real / n as real <= hi as real
  {
  }

  /** The summary of a non-empty ledger counts every sample, its minimum and
      maximum really are the extreme samples, and the average lies between
      them. */
  lemma SummaryBounds(samples: seq<nat>)
    requires samples != []
    ensures Summarize(samples).Some?
    ensures var r := Summarize(samples).value;
      && r.count == |samples|
      && r.minimum in samples && r.maximum in samples
      && (forall i :: 0 <= i < |samples| ==> r.minimum <= samples[i] <= r.maximum)
      && r.minimum as real <= r.average <= r.maximum as real
  {
    var lo, hi, n := Minimum(samples), Maximum(samples), |samples|;
    MinimumIsSmallest(samples);
    MaximumIsLargest(samples);
    var average := Sum(samples) as real / n as real;
    assert lo as real <= average <= hi as real by {
      SumBetween(samples, lo, hi);
      AverageBetween(Sum(samples), n, lo, hi);
    }
  }

  /** The average times the count gives back the sum of the samples. */
  lemma AverageTimesCount(samples: seq<nat>)
    requires samples != []
    ensures Summarize(samples).value.average * (Summarize(samples).value.count as real) == Sum(samples) as real
  {
    var r := Summarize(samples).value;
    var sum, n := Sum(samples) as real, |samples| as real;
    DivMul(sum, n);
    MulCongruent(r.average, sum / n, r.count as real, n);
  }

  /** The example: samples 10, 30 and 20 ms. */
  lemma SummaryExample()
    ensures Summarize([10, 30, 20]) == Some(LatencyStats(count := 3, average := 20.0, minimum := 10, maximum := 30))
  {
    var s := [10, 30, 20];
    assert s[..2] == [10, 30] && [10, 30][..1] == [10];
    assert Sum(s) == 60;
  }
}
