/** Per-block peak detection: a linear scan that keeps the largest sample
    seen so far, seeded with 0, followed by a threshold test on the result. */
module Peak {

  /** A signed 16-bit PCM sample. */
  newtype int16 = x: int | -0x8000 <= x < 0x8000

  /** The loudness threshold of the report test. */
  const PeakThreshold: int16 := 500

  /** One step of the scan: the running maximum after looking at `x`. */
  function Raise(maxVal: int16, x: int16): int16
  {
    if x > maxVal then x else maxVal
  }

  /** The value the scan holds after visiting every sample of `s` in order,
      starting from 0. */
  function RunningMax(s: seq<int16>): int16
  {
    if |s| == 0 then 0 else Raise(RunningMax(s[..|s| - 1]), s[|s| - 1])
  }

  /** The report test as the firmware writes it: above the threshold, or
      below its negation. */
  predicate PeakReported(maxVal: int16)
  {
    maxVal > PeakThreshold || maxVal < -PeakThreshold
  }

  /** The scan of the first `numSamples` samples of `buffer`. */
  method PeakScan(buffer: array<int16>, numSamples: nat) returns (maxVal: int16)
    requires numSamples <= buffer.Length
    ensures maxVal == RunningMax(buffer[..numSamples])
    ensures 0 <= maxVal
    ensures forall i :: 0 <= i < numSamples ==> buffer[i] <= maxVal
    ensures maxVal == 0 || exists i :: 0 <= i < numSamples && buffer[i] == maxVal
  {
    maxVal := 0;
    for i := 0 to numSamples
      invariant maxVal == RunningMax(buffer[..i])
      invariant 0 <= maxVal
      invariant forall k :: 0 <= k < i ==> buffer[k] <= maxVal
      invariant maxVal == 0 || exists k :: 0 <= k < i && buffer[k] == maxVal
    {
      assert buffer[..i + 1][..i] == buffer[..i];
      if buffer[i] > maxVal {
        maxVal := buffer[i];
      }
    }
  }

  /** The scan's result is never negative, bounds every sample, and is
      either the seed 0 or one of the samples. */
  lemma {:induction false} RunningMaxIsPeak(s: seq<int16>)
    ensures 0 <= RunningMax(s)
    ensures forall i :: 0 <= i < |s| ==> s[i] <= RunningMax(s)
    ensures RunningMax(s) == 0 || exists i :: 0 <= i < |s| && s[i] == RunningMax(s)
  {
    if |s| > 0 {
      var init := s[..|s| - 1];
      RunningMaxIsPeak(init);
      assert forall i :: 0 <= i < |init| ==> init[i] == s[i];
      if RunningMax(init) != 0 && s[|s| - 1] <= RunningMax(init) {
        var j :| 0 <= j < |init| && init[j] == RunningMax(init);
        assert s[j] == RunningMax(s);
      }
    }
  }

  /** With no positive sample (an all-zero or empty block included) the scan
      stays at its seed 0. */
  lemma {:induction false} RunningMaxOfNonPositive(s: seq<int16>)
    requires forall i :: 0 <= i < |s| ==> s[i] <= 0
    ensures RunningMax(s) == 0
  {
    RunningMaxIsPeak(s);
  }

  /** A peak is reported exactly when some sample exceeds the threshold. */
  lemma {:induction false} PeakReportedIffLoudSample(s: seq<int16>)
    ensures PeakReported(RunningMax(s)) <==> exists i :: 0 <= i < |s| && s[i] > PeakThreshold
  {
    RunningMaxIsPeak(s);
  }

  /** The second half of the report test can never fire: the running
      maximum is never below the negated threshold. */
  lemma {:induction false} NegativeBranchUnreachable(s: seq<int16>)
    ensures !(RunningMax(s) < -PeakThreshold)
    ensures PeakReported(RunningMax(s)) <==> RunningMax(s) > PeakThreshold
  {
    RunningMaxIsPeak(s);
  }

  /** A block whose samples are all at or below zero, however loud its
      negative excursions, is never reported. */
  lemma {:induction false} NegativeExcursionsUnreported(s: seq<int16>)
    requires forall i :: 0 <= i < |s| ==> s[i] <= 0
    ensures !PeakReported(RunningMax(s))
  {
    RunningMaxOfNonPositive(s);
  }

  /** The four-sample block [-2000, 500, 1999, -1999]: the scan yields 1999
      (the largest sample, not the largest magnitude 2000), and it is
      reported. */
  lemma MixedBlockScan()
    ensures RunningMax([-2000, 500, 1999, -1999]) == 1999
    ensures PeakReported(RunningMax([-2000, 500, 1999, -1999]))
  {
    var s: seq<int16> := [-2000, 500, 1999, -1999];
    assert s[..3] == [-2000, 500, 1999];
    assert s[..3][..2] == [-2000, 500];
    assert s[..3][..2][..1] == [-2000];
    assert RunningMax([-2000]) == 0;
    assert RunningMax([-2000, 500]) == 500;
    assert RunningMax([-2000, 500, 1999]) == 1999;
  }
}
