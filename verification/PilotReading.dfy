/**
 Which samples decide the pilot status: `remove_outliers` starts the extremes from the first
 sample of a side (src/pilot.c), so an outlier that comes first is reported as peak or low.
 */
module PilotReading {
  import opened CInt
  import opened PilotLevel
  import opened PilotSamples
  import opened PilotMeasure
  import opened PilotLimits
  import opened PilotStatus

  /** The first sample of the side is an outlier above, or below, the others. */
  predicate SpikesUp(side: Samples, noise: u16) {
    side != [] && side[0] > Average(side) + Tolerance(side, noise)
  }

  predicate SpikesDown(side: Samples, noise: u16) {
    side != [] && side[0] < Average(side) - Tolerance(side, noise)
  }

  /** The largest and the smallest of the samples that are kept, 0 if there are none. */
  function KeptPeak(side: Samples, noise: u16): u16 {
    MaxOf(KeptSamples(side, noise), 0)
  }

  function KeptLow(side: Samples, noise: u16): u16 {
    var kept := KeptSamples(side, noise);
    if kept == [] then 0 else MinOf(kept, kept[0])
  }

  /** The levels that the kept samples show. */
  function KeptReading(s: Samples, cutoff: u16, noise: u16): Reading {
    Reading(KeptPeak(Side(s, cutoff, true), noise), KeptLow(Side(s, cutoff, false), noise))
  }

  /** The reported peak is that of the kept samples, unless the first sample exceeds it as an outlier. */
  lemma PeakReported(side: Samples, noise: u16)
    requires NoWrap(side)
    ensures Clean(side, noise).max == if SpikesUp(side, noise) then side[0] else KeptPeak(side, noise)
    ensures SpikesUp(side, noise) ==> KeptPeak(side, noise) < side[0]
  {
    hide Average, Tolerance, KeptSamples;
    if side == [] {
      assert KeptSamples(side, noise) == [] by { NothingKept(noise); }
    } else {
      ExtremesAreKeptIff(side, noise);
      var _ := SomeKept(side, noise);
      KeptAtMost(side, noise);
    }
  }

  lemma LowReported(side: Samples, noise: u16)
    requires NoWrap(side)
    ensures Clean(side, noise).min == if SpikesDown(side, noise) then side[0] else KeptLow(side, noise)
    ensures SpikesDown(side, noise) ==> side[0] < KeptLow(side, noise)
  {
    hide Average, Tolerance, KeptSamples, NoWrap, MinOf, MaxOf;
    if side == [] {
      assert KeptSamples(side, noise) == [] by { NothingKept(noise); }
    } else {
      ExtremesAreKeptIff(side, noise);
      var _ := SomeKeptWithin(side, noise);
      KeptAtMost(side, noise);
      LowFrom(KeptSamples(side, noise), side[0], Average(side) - Tolerance(side, noise));
    }
  }

  lemma SomeKeptWithin(side: Samples, noise: u16) returns (v: u16)
    requires side != [] && NoWrap(side)
    ensures v in KeptSamples(side, noise)
  {
    v := SomeKept(side, noise);
  }

  lemma LowFrom(kept: Samples, first: u16, lo: int)
    requires kept != [] && forall v :: v in kept ==> lo <= v
    requires MinOf(kept, first) in kept <==> first >= lo
    ensures MinOf(kept, first) == if first < lo then first else MinOf(kept, kept[0])
    ensures first < lo ==> first < MinOf(kept, kept[0])
  {
    hide MinOf;
    assert kept[0] in kept;
  }

  lemma NothingKept(noise: u16)
    ensures KeptSamples([], noise) == []
  {
  }

  lemma KeptAtMost(side: Samples, noise: u16)
    requires NoWrap(side)
    ensures forall v :: v in KeptSamples(side, noise) ==>
              Average(side) - Tolerance(side, noise) <= v <= Average(side) + Tolerance(side, noise)
  {
    forall v | v in KeptSamples(side, noise)
      ensures Average(side) - Tolerance(side, noise) <= v <= Average(side) + Tolerance(side, noise)
    {
      KeptInBand(side, noise, v);
    }
  }

  /** A limit lies between the two levels, so that they show different statuses. */
  predicate Crosses(lim: Boundary, below: u16, above: u16) {
    below <= lim.a < above || below <= lim.b < above || below <= lim.c < above || below <= lim.d < above
  }

  /**
   The status is the one that the kept samples show, exactly when an outlier that comes first
   neither hides a diode fault from below nor, without one, lifts the peak over a limit.
   */
  lemma StatusIsOfKeptIff(s: Samples, cutoff: u16, noise: u16, lim: Boundary)
    requires NoWrap(Side(s, cutoff, true)) && NoWrap(Side(s, cutoff, false)) && Ordered(lim)
    ensures var highs, lows, kept := Side(s, cutoff, true), Side(s, cutoff, false), KeptReading(s, cutoff, noise);
            Evaluate(ReadingOf(Measured(s, cutoff, noise)), lim) == Evaluate(kept, lim) <==>
            if kept.low > lim.e then !(SpikesDown(lows, noise) && lows[0] <= lim.e)
            else !(SpikesUp(highs, noise) && Crosses(lim, kept.high, highs[0]))
  {
    hide Clean, Side, SpikesUp, SpikesDown, KeptPeak, KeptLow;
    PeakReported(Side(s, cutoff, true), noise);
    LowReported(Side(s, cutoff, false), noise);
  }

  /** And so for the status that is reported, whose limits depend on the status before. */
  lemma NextStatusIsOfKeptIff(s: Samples, cutoff: u16, noise: u16, b: Boundaries, prev: Status)
    requires NoWrap(Side(s, cutoff, true)) && NoWrap(Side(s, cutoff, false))
    requires Ordered(b.upward) && Ordered(b.downward) && Banded(b)
    ensures var highs, lows, kept := Side(s, cutoff, true), Side(s, cutoff, false), KeptReading(s, cutoff, noise);
            var lim := Effective(b, prev);
            NextStatus(b, prev, ReadingOf(Measured(s, cutoff, noise))) == NextStatus(b, prev, kept) <==>
            if kept.low > lim.e then !(SpikesDown(lows, noise) && lows[0] <= lim.e)
            else !(SpikesUp(highs, noise) && Crosses(lim, kept.high, highs[0]))
  {
    hide NextStatus, KeptReading, Measured, Side, Crosses;
    DecidesOnceIffBanded(b);
    StatusIsOfKeptIff(s, cutoff, noise, Effective(b, prev));
  }

  // ---------- with the default parameters ----------

  const SAMPLE_COUNT := 500
  const CUTOFF_MV := 1996
  const NOISE_MV := 50

  /** One spike in front of `n` samples of a level. */
  function Spiked(spike: u16, n: nat, level: u16): Samples {
    [spike] + Repeat(n, level)
  }

  lemma SpikedAt(spike: u16, n: nat, level: u16)
    ensures |Spiked(spike, n, level)| == n + 1
    ensures forall i :: 0 <= i <= n ==> Spiked(spike, n, level)[i] == if i == 0 then spike else level
  {
    RepeatAt(n, level);
  }

  lemma SpikedSums(spike: u16, n: nat, level: u16, avg: u16, p: nat, q: nat)
    requires Deviation(spike, avg) * Deviation(spike, avg) == p && Deviation(level, avg) * Deviation(level, avg) == q
    ensures Sum(Spiked(spike, n, level)) == spike + n * level
    ensures SumSquares(Spiked(spike, n, level), avg) == p + n * q
  {
    assert Sum([]) == 0 == SumSquares([], avg);
    hide Deviation, Sum, SumSquares, Repeat;
    SumSnoc([], spike);
    SquaresSnoc([], spike, avg);
    assert [] + [spike] == [spike];
    RepeatSums([spike], n, level, avg, q);
  }

  /** The mean and the tolerance of such a side, from its sums. */
  lemma SpikedMeasures(side: Samples, sum: nat, squares: nat, avg: u16, sd: u16, noise: u16)
    requires side != [] && Sum(side) == sum && SumSquares(side, avg) == squares < U32_RANGE
    requires avg > 0 && |side| * avg <= sum < |side| * avg + |side|
    requires sd * sd <= squares / |side| < (sd + 1) * (sd + 1)
    ensures Average(side) == avg && Tolerance(side, noise) == if sd < noise then noise else sd
  {
    hide IntSqrt, Sum, SumSquares, Average;
    MeanIs(side, avg, sum - |side| * avg);
    IntSqrtUnique(squares / |side|, sd);
  }

  /** The level is kept and the spike is not. */
  lemma SpikeDropped(spike: u16, n: nat, level: u16, avg: u16, noise: u16)
    requires n > 0
    requires var side := Spiked(spike, n, level);
             && Average(side) == avg
             && Deviation(level, avg) <= Tolerance(side, noise) < Deviation(spike, avg) <= 0x8000
    ensures var side := Spiked(spike, n, level);
            KeptPeak(side, noise) == level == KeptLow(side, noise)
  {
    hide Average, Tolerance, Within, Distance, Deviation, Spiked;
    var side := Spiked(spike, n, level);
    var kept, tol := KeptSamples(side, noise), Tolerance(side, noise);
    SpikedAt(spike, n, level);
    DistanceFolds(spike, avg);
    DistanceFolds(level, avg);
    assert side[1] == level;
    WithinHas(side, avg, tol, level);
    forall v | v in kept
      ensures v == level
    {
      WithinHas(side, avg, tol, v);
    }
    assert kept[0] in kept;
  }

  /** A spike to full scale before 499 samples of the 6 V level. */
  lemma FullScaleBeforeC()
    ensures var side := Spiked(3296, 499, 2498);
            && SpikesUp(side, NOISE_MV) && KeptPeak(side, NOISE_MV) == 2498
  {
    hide Sum, SumSquares, Average, Tolerance, Spiked, KeptPeak, KeptLow;
    SpikedAt(3296, 499, 2498);
    SpikedSums(3296, 499, 2498, 2499, 635209, 1);
    SpikedMeasures(Spiked(3296, 499, 2498), 1249798, 635708, 2499, 35, NOISE_MV);
    SpikeDropped(3296, 499, 2498, 2499, NOISE_MV);
  }

  /**
   500 converter values, a spike to full scale in front of the 6 V level: the vehicle that charges
   is taken for unplugged, although every kept sample shows C.
   */
  lemma SpikeUnplugs(adc: Samples)
    requires adc == Spiked(4095, SAMPLE_COUNT - 1, 3101)
    ensures |adc| == SAMPLE_COUNT && TwelveBit(adc)
    ensures var s := Millivolts(adc);
            && NextStatus(DEFAULT_BOUNDARIES, StatusC, ReadingOf(Measured(s, CUTOFF_MV, NOISE_MV))) == StatusA
            && NextStatus(DEFAULT_BOUNDARIES, StatusC, KeptReading(s, CUTOFF_MV, NOISE_MV)) == StatusC
  {
    hide Clean, KeptPeak, KeptLow, SpikesUp, Side, Spiked;
    SpikedAt(4095, 499, 3101);
    SpikedAt(3296, 499, 2498);
    var s := Millivolts(adc);
    MillivoltsAt(adc);
    assert Millivolt(4095) == 3296 && Millivolt(3101) == 2498;
    assert s == Spiked(3296, 499, 2498);
    SideAbove(s, CUTOFF_MV);
    FullScaleBeforeC();
    FewSamplesDoNotWrap(s, CUTOFF_MV, true);
    FewSamplesDoNotWrap(s, CUTOFF_MV, false);
    PeakReported(s, NOISE_MV);
    LowReported([], NOISE_MV);
    NoLowLevel(NOISE_MV);
  }

  lemma NoLowLevel(noise: u16)
    ensures KeptLow([], noise) == 0
  {
  }

  lemma {:induction false} SideAbove(s: Samples, cutoff: u16)
    requires forall i :: 0 <= i < |s| ==> s[i] > cutoff
    ensures Side(s, cutoff, true) == s && Side(s, cutoff, false) == []
  {
    if s == [] {
    } else {
      hide Side;
      var init, v := s[..|s| - 1], s[|s| - 1];
      SideAbove(init, cutoff);
      SideSnoc(init, v, cutoff, true);
      SideSnoc(init, v, cutoff, false);
      assert s == init + [v];
    }
  }

  /** One sample at 0 before 498 samples above the diode limit. */
  lemma ZeroBeforeFault()
    ensures var side := Spiked(0, 498, 996);
            && SpikesDown(side, NOISE_MV) && KeptLow(side, NOISE_MV) == 996
  {
    hide Sum, SumSquares, Average, Tolerance, Spiked, KeptPeak, KeptLow;
    SpikedAt(0, 498, 996);
    SpikedSums(0, 498, 996, 994, 988036, 4);
    SpikedMeasures(Spiked(0, 498, 996), 496008, 990028, 994, 44, NOISE_MV);
    SpikeDropped(0, 498, 996, 994, NOISE_MV);
  }

  /**
   500 converter values of a pilot that never goes below 996 mV but for the first low sample: the
   diode fault that every kept low sample shows is not reported.
   */
  lemma SpikeHidesDiodeFault(adc: Samples)
    requires adc == Spiked(0, SAMPLE_COUNT - 2, 1240) + [4095]
    ensures |adc| == SAMPLE_COUNT && TwelveBit(adc)
    ensures var s := Millivolts(adc);
            && NextStatus(DEFAULT_BOUNDARIES, StatusA, ReadingOf(Measured(s, CUTOFF_MV, NOISE_MV))) == StatusA
            && NextStatus(DEFAULT_BOUNDARIES, StatusA, KeptReading(s, CUTOFF_MV, NOISE_MV)) == StatusE
  {
    hide Clean, KeptPeak, KeptLow, SpikesUp, SpikesDown, Side, Spiked;
    SpikedAt(0, 498, 1240);
    SpikedAt(0, 498, 996);
    var s, lows := Millivolts(adc), Spiked(0, 498, 996);
    MillivoltsAt(adc);
    assert Millivolt(0) == 0 && Millivolt(1240) == 996 && Millivolt(4095) == 3296;
    assert s == lows + [3296];
    LowsAndHigh(lows, 3296);
    ZeroBeforeFault();
    FewSamplesDoNotWrap(s, CUTOFF_MV, true);
    FewSamplesDoNotWrap(s, CUTOFF_MV, false);
    PeakReported([3296], NOISE_MV);
    LowReported(lows, NOISE_MV);
    OneSample(3296, NOISE_MV);
  }

  lemma LowsAndHigh(lows: Samples, high: u16)
    requires high > CUTOFF_MV && forall i :: 0 <= i < |lows| ==> lows[i] <= CUTOFF_MV
    ensures Side(lows + [high], CUTOFF_MV, false) == lows && Side(lows + [high], CUTOFF_MV, true) == [high]
  {
    SideBelow(lows, CUTOFF_MV);
    SideSnoc(lows, high, CUTOFF_MV, true);
    SideSnoc(lows, high, CUTOFF_MV, false);
  }

  lemma OneSample(v: u16, noise: u16)
    ensures !SpikesUp([v], noise) && KeptPeak([v], noise) == v
  {
    var s: Samples := [v];
    assert Sum([]) == 0 && Distance(v, v) == 0;
    hide Average, Tolerance, Within, Distance, Sum;
    SumSnoc([], v);
    assert [] + [v] == s;
    MeanIs(s, v, 0);
    WithinHas(s, v, Tolerance(s, noise), v);
    forall w | w in KeptSamples(s, noise)
      ensures w == v
    {
      WithinHas(s, v, Tolerance(s, noise), w);
    }
  }
}
