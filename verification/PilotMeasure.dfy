/** From raw samples to a waveform and its duty cycle (src/pilot.c). */
module PilotMeasure {
  import opened CInt
  import opened Arith
  import opened PilotSamples

  // ---------- outliers ----------

  /** Conversion to `int16_t`. */
  function Int16(x: int): int {
    (x + 0x8000) % 0x1_0000 - 0x8000
  }

  /** The distance from the mean that the code computes, through a 16-bit signed difference. */
  function Distance(v: u16, avg: u16): u16 {
    var diff := Int16(v - avg);
    if diff < 0 then -diff else diff
  }

  /** It never exceeds the true distance, and is the true one up to 2^15. */
  lemma DistanceFolds(v: u16, avg: u16)
    ensures Distance(v, avg) <= Deviation(v, avg)
    ensures Distance(v, avg) == Deviation(v, avg) <==> Deviation(v, avg) <= 0x8000
  {
  }

  /** The samples whose computed distance from the mean is at most `tol`, in order. */
  function Within(s: Samples, avg: u16, tol: u16): Samples {
    if s == [] then []
    else if Distance(s[|s| - 1], avg) <= tol then Within(s[..|s| - 1], avg, tol) + [s[|s| - 1]]
    else Within(s[..|s| - 1], avg, tol)
  }

  function Tolerance(s: Samples, noise: u16): u16 {
    var sd := ComputedDeviation(s, Average(s));
    if sd < noise then noise else sd
  }

  function KeptSamples(s: Samples, noise: u16): Samples {
    Within(s, Average(s), Tolerance(s, noise))
  }

  /** The largest of `init` and the samples. */
  function MaxOf(s: Samples, init: u16): (m: u16)
    ensures init <= m && (m == init || m in s)
    ensures forall v :: v in s ==> v <= m
  {
    if s == [] then init
    else
      var m := MaxOf(s[..|s| - 1], init);
      assert s == s[..|s| - 1] + [s[|s| - 1]];
      if s[|s| - 1] > m then s[|s| - 1] else m
  }

  /** The smallest of `init` and the samples. */
  function MinOf(s: Samples, init: u16): (m: u16)
    ensures m <= init && (m == init || m in s)
    ensures forall v :: v in s ==> m <= v
  {
    if s == [] then init
    else
      var m := MinOf(s[..|s| - 1], init);
      assert s == s[..|s| - 1] + [s[|s| - 1]];
      if s[|s| - 1] < m then s[|s| - 1] else m
  }

  datatype Cleaned = Cleaned(sum: nat, count: nat, outliers: nat, max: u16, min: u16)

  /** `remove_outliers`: the extremes start from the first sample, outlier or not. */
  function Clean(s: Samples, noise: u16): Cleaned {
    if s == [] then Cleaned(0, 0, 0, 0, 0)
    else
      var kept := KeptSamples(s, noise);
      WithinLength(s, Average(s), Tolerance(s, noise));
      Cleaned(Sum(kept), |kept|, |s| - |kept|, MaxOf(kept, s[0]), MinOf(kept, s[0]))
  }

  lemma {:induction false} WithinLength(s: Samples, avg: u16, tol: u16)
    ensures |Within(s, avg, tol)| <= |s| && Sum(Within(s, avg, tol)) <= Sum(s)
  {
    if s == [] {
    } else {
      WithinLength(s[..|s| - 1], avg, tol);
      SumSnoc(Within(s[..|s| - 1], avg, tol), s[|s| - 1]);
    }
  }

  lemma SumSnoc(s: Samples, v: u16)
    ensures Sum(s + [v]) == Sum(s) + v
  {
    assert (s + [v])[..|s|] == s;
  }

  /** The kept samples are exactly those within the tolerance. */
  lemma {:induction false} WithinHas(s: Samples, avg: u16, tol: u16, v: u16)
    ensures v in Within(s, avg, tol) <==> v in s && Distance(v, avg) <= tol
  {
    if s == [] {
    } else {
      WithinHas(s[..|s| - 1], avg, tol, v);
      assert s == s[..|s| - 1] + [s[|s| - 1]];
    }
  }

  /** While the sum of squares fits 32 bits, outlier removal never discards every sample, whatever the tolerance. */
  lemma CleanKeepsOne(s: Samples, noise: u16)
    requires s != [] && SumSquares(s, Average(s)) < U32_RANGE
    ensures var c := Clean(s, noise);
            && c.count >= 1 && c.count + c.outliers == |s|
            && c.sum == Sum(KeptSamples(s, noise)) && c.count == |KeptSamples(s, noise)|
  {
    var _ := SomeKept(s, noise);
    WithinLength(s, Average(s), Tolerance(s, noise));
  }

  lemma SomeKept(s: Samples, noise: u16) returns (v: u16)
    requires s != [] && SumSquares(s, Average(s)) < U32_RANGE
    ensures v in KeptSamples(s, noise)
  {
    hide IntSqrt, SumSquares, Distance, Deviation, Average, Within;
    var k := SomeWithinDeviation(s);
    v := s[k];
    DistanceFolds(v, Average(s));
    WithinHas(s, Average(s), Tolerance(s, noise), v);
  }

  /** The sample is so near the mean that the 32-bit sum of squares, or the noise tolerance, admits it. */
  ghost predicate Admitted(s: Samples, noise: u16, v: u16) {
    var d := Distance(v, Average(s));
    d <= noise || d == 0 || (Average(s) > 0 && |s| * (d * d) <= Wrap32(SumSquares(s, Average(s))))
  }

  /** In every nonempty buffer a sample is kept exactly when some sample is admitted. */
  lemma KeepsOneIff(s: Samples, noise: u16)
    requires s != []
    ensures Clean(s, noise).count >= 1 <==> exists i :: 0 <= i < |s| && Admitted(s, noise, s[i])
  {
    var kept := KeptSamples(s, noise);
    assert |kept| > 0 ==> kept[0] in kept;
    forall v | v in s
      ensures v in kept <==> Admitted(s, noise, v)
    {
      KeptIffAdmitted(s, noise, v);
    }
    if |kept| > 0 {
      WithinHas(s, Average(s), Tolerance(s, noise), kept[0]);
    }
  }

  lemma KeptIffAdmitted(s: Samples, noise: u16, v: u16)
    requires v in s
    ensures v in KeptSamples(s, noise) <==> Admitted(s, noise, v)
  {
    hide IntSqrt, Wrap32, Distance, Average;
    WithinHas(s, Average(s), Tolerance(s, noise), v);
    if Average(s) > 0 {
      WithinRootIff(|s|, Distance(v, Average(s)), Wrap32(SumSquares(s, Average(s))));
    }
  }

  /** Within these bounds the arithmetic of the removal is exact. */
  ghost predicate NoWrap(s: Samples) {
    && SumSquares(s, Average(s)) < U32_RANGE
    && forall i :: 0 <= i < |s| ==> Deviation(s[i], Average(s)) <= 0x8000
  }

  /**
   The extremes start from the first sample. The reported peak is a kept sample exactly when the
   first sample is not an outlier upwards, and the reported low exactly when it is none downwards.
   */
  lemma ExtremesAreKeptIff(s: Samples, noise: u16)
    requires s != [] && NoWrap(s)
    ensures Clean(s, noise).max in KeptSamples(s, noise) <==> s[0] <= Average(s) + Tolerance(s, noise)
    ensures Clean(s, noise).min in KeptSamples(s, noise) <==> s[0] >= Average(s) - Tolerance(s, noise)
  {
    var kept, avg, tol := KeptSamples(s, noise), Average(s), Tolerance(s, noise);
    var v := SomeKept(s, noise);
    forall w: u16
      ensures w in kept <==> w in s && avg - tol <= w <= avg + tol
    {
      KeptInBand(s, noise, w);
    }
    ExtremesFrom(kept, s[0], v, avg - tol, avg + tol);
  }

  lemma KeptInBand(s: Samples, noise: u16, w: u16)
    requires NoWrap(s)
    ensures w in KeptSamples(s, noise) <==>
            w in s && Average(s) - Tolerance(s, noise) <= w <= Average(s) + Tolerance(s, noise)
  {
    WithinHas(s, Average(s), Tolerance(s, noise), w);
    if w in s {
      var i :| 0 <= i < |s| && s[i] == w;
      DistanceFolds(s[i], Average(s));
    }
  }

  lemma ExtremesFrom(kept: Samples, first: u16, v: u16, lo: int, hi: int)
    requires v in kept && forall w :: w in kept ==> lo <= w <= hi
    requires lo <= first <= hi ==> first in kept
    ensures MaxOf(kept, first) in kept <==> first <= hi
    ensures MinOf(kept, first) in kept <==> first >= lo
  {
  }

  method RemoveOutliers(samples: array<u16>, count: nat, total: nat, noise: u16) returns (c: Cleaned)
    requires count <= samples.Length && count < 0x1_0000
    requires total == Sum(samples[..count])
    ensures c == Clean(samples[..count], noise)
  {
    if count == 0 {
      return Cleaned(0, 0, 0, 0, 0);
    }
    AverageAtMost(samples[..count], 0xFFFF);
    var avg: u16 := total / count;
    var sd := CalculateStandardDeviation(samples[..count], avg);
    c := Partition(samples, count, total, avg, if sd < noise then noise else sd);
  }

  /** The loop of `remove_outliers`. */
  method Partition(samples: array<u16>, count: nat, total: nat, avg: u16, tol: u16) returns (c: Cleaned)
    requires 0 < count <= samples.Length
    requires total == Sum(samples[..count])
    ensures var s := samples[..count];
            var kept := Within(s, avg, tol);
            && c.sum == Sum(kept) && c.count == |kept| && c.outliers == count - |kept|
            && c.max == MaxOf(kept, s[0]) && c.min == MinOf(kept, s[0])
  {
    ghost var s := samples[..count];
    var max, min, outliers := samples[0], samples[0], 0;
    var sum: int := total;
    assert s[..0] == [] && s[..count] == s;
    assert Partitioned(s, 0, avg, tol, sum, outliers, max, min);
    for i := 0 to count
      invariant Partitioned(s, i, avg, tol, sum, outliers, max, min)
    {
      hide Partitioned;
      PartitionStep(s, i, avg, tol, sum, outliers, max, min);
      var val := samples[i];
      var diff := AbsDiff(val, avg);
      if diff > tol {
        sum := sum - val;
        outliers := outliers + 1;
      } else {
        max := if val > max then val else max;
        min := if val < min then val else min;
      }
    }
    c := Cleaned(sum, count - outliers, outliers, max, min);
  }

  /** What the loop of `remove_outliers` has computed after `i` samples. */
  ghost predicate Partitioned(s: Samples, i: nat, avg: u16, tol: u16, sum: int, outliers: int, max: u16, min: u16)
    requires 0 < |s| && i <= |s|
  {
    var kept := Within(s[..i], avg, tol);
    && outliers == i - |kept| && 0 <= outliers
    && sum == Sum(s) - Sum(s[..i]) + Sum(kept)
    && max == MaxOf(kept, s[0]) && min == MinOf(kept, s[0])
  }

  lemma PartitionStep(s: Samples, i: nat, avg: u16, tol: u16, sum: int, outliers: int, max: u16, min: u16)
    requires i < |s| && Partitioned(s, i, avg, tol, sum, outliers, max, min)
    ensures if Distance(s[i], avg) > tol
            then Partitioned(s, i + 1, avg, tol, sum - s[i], outliers + 1, max, min)
            else Partitioned(s, i + 1, avg, tol, sum, outliers,
                             if s[i] > max then s[i] else max, if s[i] < min then s[i] else min)
  {
    hide Within, Sum, MaxOf, MinOf, Distance;
    WithinSnoc(s, avg, tol, i);
    KeptSnoc(Within(s[..i], avg, tol), s[i], s[0]);
  }

  /** The negation is 16-bit too, and the comparison is made on `uint16_t`. */
  method AbsDiff(val: u16, avg: u16) returns (diff: int)
    ensures diff == Distance(val, avg)
  {
    diff := Int16(val - avg);
    diff := (if diff < 0 then Int16(-diff) else diff) % 0x1_0000;
  }

  lemma WithinSnoc(s: Samples, avg: u16, tol: u16, i: nat)
    requires i < |s|
    ensures Sum(s[..i + 1]) == Sum(s[..i]) + s[i]
    ensures Within(s[..i + 1], avg, tol) ==
            if Distance(s[i], avg) <= tol then Within(s[..i], avg, tol) + [s[i]] else Within(s[..i], avg, tol)
  {
    assert s[..i + 1][..i] == s[..i];
  }

  lemma KeptSnoc(kept: Samples, v: u16, init: u16)
    ensures Sum(kept + [v]) == Sum(kept) + v
    ensures MaxOf(kept + [v], init) == if v > MaxOf(kept, init) then v else MaxOf(kept, init)
    ensures MinOf(kept + [v], init) == if v < MinOf(kept, init) then v else MinOf(kept, init)
  {
    assert (kept + [v])[..|kept|] == kept;
  }

  // ---------- the waveform ----------

  datatype Waveform = Waveform(
    highs: nat, lows: nat, highsOutliers: nat, lowsOutliers: nat,
    highsMax: u16, lowsMin: u16, highsSum: nat, lowsSum: nat)

  /** The samples above (or not above) the cutoff, in order. */
  function Side(s: Samples, cutoff: u16, above: bool): Samples {
    if s == [] then []
    else if (s[|s| - 1] > cutoff) == above then Side(s[..|s| - 1], cutoff, above) + [s[|s| - 1]]
    else Side(s[..|s| - 1], cutoff, above)
  }

  function Measured(s: Samples, cutoff: u16, noise: u16): Waveform {
    var hi, lo := Clean(Side(s, cutoff, true), noise), Clean(Side(s, cutoff, false), noise);
    Waveform(hi.count, lo.count, hi.outliers, lo.outliers, hi.max, lo.min, hi.sum, lo.sum)
  }

  lemma SideSnoc(s: Samples, v: u16, cutoff: u16, above: bool)
    ensures Side(s + [v], cutoff, above) ==
            if (v > cutoff) == above then Side(s, cutoff, above) + [v] else Side(s, cutoff, above)
  {
    assert (s + [v])[..|s|] == s;
  }

  /** The sides split the samples and their sum. */
  lemma {:induction false} SidesSplit(s: Samples, cutoff: u16)
    ensures |Side(s, cutoff, true)| + |Side(s, cutoff, false)| == |s|
    ensures Sum(Side(s, cutoff, true)) + Sum(Side(s, cutoff, false)) == Sum(s)
  {
    if s == [] {
    } else {
      SidesSplit(s[..|s| - 1], cutoff);
      SumSnoc(Side(s[..|s| - 1], cutoff, s[|s| - 1] > cutoff), s[|s| - 1]);
    }
  }

  lemma {:induction false} SideHas(s: Samples, cutoff: u16, above: bool, i: nat)
    requires i < |Side(s, cutoff, above)|
    ensures var v := Side(s, cutoff, above)[i]; v in s && (v > cutoff) == above
  {
    var side := Side(s[..|s| - 1], cutoff, above);
    assert s == s[..|s| - 1] + [s[|s| - 1]];
    if i < |side| {
      SideHas(s[..|s| - 1], cutoff, above, i);
    }
  }

  /** `get_duty`, with its 16-bit sums. */
  function Duty(w: Waveform): (duty: nat) {
    var transitions := w.lowsOutliers / 2 + w.highsOutliers / 2;
    var total := (w.highs + w.lows + w.highsOutliers + w.lowsOutliers) % 0x1_0000;
    var highs := (w.highs + transitions) % 0x1_0000;
    if total == 0 then 0 else Percent(highs, total)
  }

  function Percent(highs: nat, total: nat): nat
    requires total > 0
  {
    (highs * 1000 / total + 5) / 10
  }

  /** Truncating to tenths and then rounding is rounding to the nearest percent, halves up. */
  lemma RoundsToNearest(h: nat, total: nat)
    requires total > 0
    ensures var duty := Percent(h, total);
            (2 * duty - 1) * total <= 200 * h < (2 * duty + 1) * total
  {
    var p := h * 1000 / total;
    var duty := (p + 5) / 10;
    DivisionBelow(h * 1000, total);
    assert 10 * duty - 5 <= p <= 10 * duty + 4;
    TimesMonotone(10 * duty - 5, p, total);
    TimesMonotone(p + 1, 10 * duty + 5, total);
    assert total * (p + 1) == (p + 1) * total && total * p == p * total;
    assert (10 * duty - 5) * total == 5 * ((2 * duty - 1) * total);
    assert (10 * duty + 5) * total == 5 * ((2 * duty + 1) * total);
  }

  lemma CleanCounts(s: Samples, noise: u16)
    ensures Clean(s, noise).count + Clean(s, noise).outliers == |s|
  {
    WithinLength(s, Average(s), Tolerance(s, noise));
  }

  /** Every sample is counted once: high, low, or an outlier of one side. */
  lemma EverySampleCounts(s: Samples, cutoff: u16, noise: u16)
    ensures var w := Measured(s, cutoff, noise);
            w.highs + w.lows + w.highsOutliers + w.lowsOutliers == |s|
  {
    SidesSplit(s, cutoff);
    CleanCounts(Side(s, cutoff, true), noise);
    CleanCounts(Side(s, cutoff, false), noise);
  }

  /** The waveform tells number and sum of the kept samples of each side, and those are on their side of the cutoff. */
  lemma WaveformDescribes(s: Samples, cutoff: u16, noise: u16, v: u16)
    ensures var w := Measured(s, cutoff, noise);
            var highs, lows := KeptSamples(Side(s, cutoff, true), noise), KeptSamples(Side(s, cutoff, false), noise);
            && w.highs == |highs| && w.highsSum == Sum(highs) && w.lows == |lows| && w.lowsSum == Sum(lows)
            && (v in highs ==> v in s && v > cutoff) && (v in lows ==> v in s && v <= cutoff)
  {
    KeptOnSide(s, cutoff, true, noise, v);
    KeptOnSide(s, cutoff, false, noise, v);
  }

  lemma KeptOnSide(s: Samples, cutoff: u16, above: bool, noise: u16, v: u16)
    ensures v in KeptSamples(Side(s, cutoff, above), noise) ==> v in s && (v > cutoff) == above
  {
    hide Average, Tolerance, Side, Within;
    var side := Side(s, cutoff, above);
    WithinHas(side, Average(side), Tolerance(side, noise), v);
    if v in side {
      var i :| 0 <= i < |side| && side[i] == v;
      SideHas(s, cutoff, above, i);
    }
  }

  /** The samples that count as high: the high ones and half of the transitions. */
  function HighShare(w: Waveform): nat {
    w.highs + (w.lowsOutliers / 2 + w.highsOutliers / 2)
  }

  /** The duty is the high share of the samples, to the nearest percent, and so between 0 and 100. */
  lemma DutyIsPercentage(s: Samples, cutoff: u16, noise: u16)
    requires 0 < |s| < 0x1_0000
    ensures var w := Measured(s, cutoff, noise);
            var share := w.highs + w.lowsOutliers / 2 + w.highsOutliers / 2;
            && (2 * Duty(w) - 1) * |s| <= 200 * share < (2 * Duty(w) + 1) * |s|
            && 0 <= Duty(w) <= 100
  {
    EverySampleCounts(s, cutoff, noise);
    DutyRounds(Measured(s, cutoff, noise), |s|);
  }

  lemma DutyRounds(w: Waveform, total: nat)
    requires 0 < total < 0x1_0000 && w.highs + w.lows + w.highsOutliers + w.lowsOutliers == total
    ensures (2 * Duty(w) - 1) * total <= 200 * HighShare(w) < (2 * Duty(w) + 1) * total
    ensures 0 <= Duty(w) <= 100
  {
    hide Percent;
    DutyValue(w, total);
    RoundsToNearest(HighShare(w), total);
    AtMostHundred(Duty(w), total, HighShare(w));
  }

  lemma DutyValue(w: Waveform, total: nat)
    requires 0 < total < 0x1_0000 && w.highs + w.lows + w.highsOutliers + w.lowsOutliers == total
    ensures HighShare(w) <= total
    ensures Duty(w) == Percent(HighShare(w), total)
  {
    hide Percent;
  }

  lemma AtMostHundred(duty: nat, total: nat, high: nat)
    requires total > 0 && high <= total && (2 * duty - 1) * total <= 200 * high
    ensures duty <= 100
  {
    if duty > 100 {
      TimesMonotone(201, 2 * duty - 1, total);
    }
  }

  // ---------- conversion ----------

  /** `convert_raw_to_millivolt` with its 12 bits of resolution and 3.3 V reference. */
  function Millivolt(raw: u16): u32 {
    raw * 1000 / 4096 * 3300 / 1000
  }

  lemma MillivoltBound(raw: u16)
    requires raw < 4096
    ensures Millivolt(raw) <= 3296
  {
  }

  // ---------- the object ----------

  function Millivolts(adc: Samples): Samples
    requires forall i :: 0 <= i < |adc| ==> adc[i] < 4096
  {
    seq(|adc|, i requires 0 <= i < |adc| => (MillivoltBound(adc[i]); Millivolt(adc[i])))
  }

  /** The sample buffers of both sides and their running sums. */
  class Sampler {
    const cutoff: u16
    const noise: u16
    const highs: array<u16>
    const lows: array<u16>
    var highCount: nat
    var lowCount: nat
    var highSum: nat
    var lowSum: nat

    constructor (cutoff: u16, noise: u16, sampleCount: nat)
      ensures this.cutoff == cutoff && this.noise == noise
      ensures fresh(highs) && fresh(lows) && highs != lows && highs.Length == lows.Length == sampleCount
    {
      this.cutoff, this.noise := cutoff, noise;
      highs := new u16[sampleCount];
      lows := new u16[sampleCount];
      highCount, lowCount, highSum, lowSum := 0, 0, 0, 0;
    }

    /** The buffers hold the two sides of the samples `s`. */
    ghost predicate Holds(s: Samples)
      reads this, highs, lows
    {
      && highCount <= highs.Length && lowCount <= lows.Length
      && highs[..highCount] == Side(s, cutoff, true) && highSum == Sum(Side(s, cutoff, true))
      && lows[..lowCount] == Side(s, cutoff, false) && lowSum == Sum(Side(s, cutoff, false))
    }

    method OnAdcSample(mv: u16, ghost s: Samples)
      requires highs != lows && highs.Length == lows.Length && |s| < highs.Length && Holds(s)
      modifies this`highCount, this`lowCount, this`highSum, this`lowSum, highs, lows
      ensures Holds(s + [mv])
    {
      hide Side, Sum;
      SidesSplit(s, cutoff);
      SideSnoc(s, mv, cutoff, true);
      SideSnoc(s, mv, cutoff, false);
      SumSnoc(Side(s, cutoff, mv > cutoff), mv);
      if mv > cutoff {
        highs[highCount] := mv;
        assert highs[..highCount + 1] == old(highs[..highCount]) + [mv];
        highCount, highSum := highCount + 1, highSum + mv;
      } else {
        lows[lowCount] := mv;
        assert lows[..lowCount + 1] == old(lows[..lowCount]) + [mv];
        lowCount, lowSum := lowCount + 1, lowSum + mv;
      }
    }

    /** `measure`: clear, take the samples one by one, and clean both sides. */
    method Measure(adc: Samples) returns (w: Waveform)
      requires highs != lows && |adc| <= highs.Length == lows.Length < 0x1_0000
      requires forall i :: 0 <= i < |adc| ==> adc[i] < 4096
      modifies this`highCount, this`lowCount, this`highSum, this`lowSum, highs, lows
      ensures w == Measured(Millivolts(adc), cutoff, noise)
    {
      ghost var mv := Millivolts(adc);
      highCount, lowCount, highSum, lowSum := 0, 0, 0, 0;
      for i := 0 to |adc|
        invariant Holds(mv[..i])
      {
        MillivoltBound(adc[i]);
        assert mv[..i + 1] == mv[..i] + [mv[i]];
        OnAdcSample(Millivolt(adc[i]), mv[..i]);
      }
      assert mv[..|adc|] == mv;
      SidesSplit(mv, cutoff);
      var hi := RemoveOutliers(highs, highCount, highSum, noise);
      var lo := RemoveOutliers(lows, lowCount, lowSum, noise);
      w := Waveform(hi.count, lo.count, hi.outliers, lo.outliers, hi.max, lo.min, hi.sum, lo.sum);
    }
  }
}
